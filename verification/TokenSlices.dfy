/**
 The parser's token memory: Go slices that share and outgrow arrays (caddyfile/parse.go).

 An import is spliced in with two nested appends, either of which may write into spare capacity:
 the inner one into the array of a stored snippet, the outer one into the array the tokens being
 parsed live in. The contracts below say that none of this is ever visible: the tokens are always
 the pure splice, and stored snippets always keep the contents they were defined with.
 */
module TokenSlices {
  import opened Lexer

  /** len elements of arr from offset off; the capacity reaches to the end of the array. */
  datatype Slice = Slice(arr: array<Token>, off: nat, len: nat)

  ghost predicate Fits(s: Slice) {
    s.off + s.len <= s.arr.Length
  }

  ghost function View(s: Slice): (r: seq<Token>)
    reads s.arr
    requires Fits(s)
    ensures |r| == s.len
  {
    s.arr[s.off..s.off + s.len]
  }

  /** An empty slice without capacity to spare. */
  method Empty() returns (s: Slice)
    ensures Fits(s) && fresh(s.arr) && View(s) == []
  {
    var arr := new Token[0];
    s := Slice(arr, 0, 0);
  }

  /**
   Go's append: in place when the capacity allows, else into a new array of some larger capacity.
   Either way the result reads as the concatenation, and of the old array only spare capacity
   right behind s can have changed.
   */
  method Append(s: Slice, more: seq<Token>) returns (r: Slice)
    requires Fits(s)
    modifies s.arr
    ensures Fits(r) && View(r) == old(View(s)) + more
    ensures (r.arr == s.arr && r.off == s.off) || fresh(r.arr)
    ensures View(s) == old(View(s))
    ensures fresh(r.arr) ==> s.arr[..] == old(s.arr[..])
  {
    if s.off + s.len + |more| <= s.arr.Length {
      r := AppendInPlace(s, more);
    } else {
      var capacity: nat := *;
      r := AppendInNew(s, more, if capacity < s.len + |more| then s.len + |more| else capacity);
    }
  }

  method AppendInPlace(s: Slice, more: seq<Token>) returns (r: Slice)
    requires Fits(s) && s.off + s.len + |more| <= s.arr.Length
    modifies s.arr
    ensures Fits(r) && View(r) == old(View(s)) + more && r.arr == s.arr && r.off == s.off
    ensures View(s) == old(View(s))
  {
    var end := s.off + s.len;
    forall i | 0 <= i < |more| {
      s.arr[end + i] := more[i];
    }
    r := Slice(s.arr, s.off, s.len + |more|);
  }

  method AppendInNew(s: Slice, more: seq<Token>, capacity: nat) returns (r: Slice)
    requires Fits(s) && s.len + |more| <= capacity
    ensures Fits(r) && View(r) == View(s) + more && fresh(r.arr)
  {
    var arr := new Token[capacity];
    forall i | 0 <= i < s.len {
      arr[i] := s.arr[s.off + i];
    }
    forall i | 0 <= i < |more| {
      arr[s.len + i] := more[i];
    }
    r := Slice(arr, 0, s.len + |more|);
  }

  lemma {:induction false} Head(s: Slice, n: nat)
    requires Fits(s) && n <= s.len
    ensures View(s.(len := n)) == View(s)[..n]
  {
  }

  /** Overwrites an element in place. */
  method Put(s: Slice, i: nat, t: Token)
    requires Fits(s) && i < s.len
    modifies s.arr
    ensures View(s) == old(View(s))[i := t]
  {
    s.arr[s.off + i] := t;
  }

  class TokenStore {
    /** The tokens being parsed. */
    var tokens: Slice
    /** The stored snippets. */
    var snippets: map<string, Slice>

    /** What the tokens and the snippets read as, and the memory they live in. */
    ghost var toks: seq<Token>
    ghost var snips: map<string, seq<Token>>
    ghost var repr: set<object>

    /** No array is shared: not between snippets, and not between a snippet and the tokens. */
    ghost predicate Valid()
      reads this, repr
    {
      && this in repr
      && tokens.arr in repr && Fits(tokens) && View(tokens) == toks
      && snips.Keys == snippets.Keys
      && (forall n :: n in snippets ==> Holds(n))
      && (forall m, n :: m in snippets && n in snippets && m != n ==> snippets[m].arr != snippets[n].arr)
    }

    /** A snippet has memory of its own, which reads as the snippet's tokens. */
    ghost predicate Holds(n: string)
      reads this, repr
      requires n in snippets && n in snips
    {
      var s := snippets[n];
      s.arr in repr && s.arr != tokens.arr && Fits(s) && View(s) == snips[n]
    }

    /** A snippet whose memory nothing was done to holds as before. */
    twostate lemma StillHolds(n: string)
      requires n in old(snippets) && n in old(snips) && old(Holds(n))
      requires n in snippets && n in snips && snippets[n] == old(snippets[n]) && snips[n] == old(snips[n])
      requires old(repr) <= repr && tokens.arr != snippets[n].arr && unchanged(old(snippets[n].arr))
      ensures Holds(n)
    {
    }

    twostate lemma HeldApart(n: string)
      requires n in old(snippets) && n in old(snips) && old(Holds(n))
      ensures old(snippets[n].arr) in old(repr) && old(snippets[n].arr) != old(tokens.arr) && old(Fits(snippets[n]))
    {
    }

    lemma {:induction false} NowHolds(n: string)
      requires n in snippets && n in snips && snippets[n].arr in repr && snippets[n].arr != tokens.arr
      requires Fits(snippets[n]) && View(snippets[n]) == snips[n]
      ensures Holds(n)
    {
    }

    constructor (ts: seq<Token>)
      ensures Valid() && toks == ts && snips == map[] && fresh(repr)
    {
      snippets, snips := map[], map[];
      var s := Empty();
      var r := Append(s, ts);
      tokens, toks := r, ts;
      repr := {this, r.arr};
      new;
      assert [] + ts == ts;
    }

    function Len(): (n: nat)
      reads this, repr
      requires Valid()
      ensures n == |toks|
    {
      tokens.len
    }

    function Get(i: nat): (t: Token)
      reads this, repr
      requires Valid() && i < |toks|
      ensures t == toks[i]
    {
      tokens.arr[tokens.off + i]
    }

    predicate Defines(name: string)
      reads this, repr
      requires Valid()
      ensures Defines(name) <==> name in snips
    {
      name in snippets
    }

    /** Replaces the text of a token in place. */
    method SetText(i: nat, text: string)
      requires Valid() && i < |toks|
      modifies this`toks, tokens.arr
      ensures Valid()
      ensures toks == old(toks)[i := old(toks)[i].(text := text)]
    {
      hide View;
      var t := Get(i).(text := text);
      Put(tokens, i, t);
      toks := toks[i := t];
      forall n | n in snippets
        ensures Holds(n)
      {
        assert old(Holds(n));
      }
    }

    /** Stores a snippet, in memory of its own, under a name not used yet. */
    method Define(name: string, s: Slice)
      requires Valid() && Fits(s) && s.arr !in repr && name !in snips
      modifies this
      ensures Valid() && repr == old(repr) + {s.arr}
      ensures toks == old(toks) && snips == old(snips)[name := View(s)]
    {
      hide View, Fits, TokenStore.Holds;
      snippets, snips := snippets[name := s], snips[name := View(s)];
      repr := repr + {s.arr};
      forall n | n in old(snippets)
        ensures Holds(n) && snippets[n].arr != s.arr
      {
        HeldApart(n);
        StillHolds(n);
      }
      NowHolds(name);
    }

    /** A slice that an import may take: a stored snippet, or memory the store knows nothing of. */
    ghost predicate Importable(s: Slice)
      reads this, repr
    {
      Fits(s) && ((exists n :: n in snippets && snippets[n] == s) || s.arr !in repr)
    }

    /** Appending to an importable slice leaves the tokens and every stored snippet as they read. */
    method AppendTo(s: Slice, more: seq<Token>) returns (r: Slice)
      requires Valid() && Importable(s)
      modifies s.arr
      ensures Valid() && Fits(r) && View(r) == old(View(s)) + more
      ensures r.arr == s.arr || fresh(r.arr)
    {
      hide View;
      r := Append(s, more);
      forall n | n in snippets
        ensures Holds(n)
      {
        assert old(Holds(n));
      }
    }

    /** Appends to the first n tokens, in place or not, and makes the result the tokens. */
    method Extend(n: nat, more: seq<Token>)
      requires Valid() && n <= |toks|
      modifies this, tokens.arr
      ensures Valid() && fresh(repr - old(repr)) && snips == old(snips)
      ensures toks == old(toks)[..n] + more
    {
      hide View, TokenStore.Holds;
      var before := tokens.(len := n);
      Head(tokens, n);
      var r := Append(before, more);
      tokens, toks := r, toks[..n] + more;
      repr := repr + {r.arr};
      forall m | m in snippets
        ensures Holds(m)
      {
        HeldApart(m);
        StillHolds(m);
      }
    }

    /**
     Splices imported tokens in the place of the two tokens before index `after`: the directive
     and its argument.
     */
    method Splice(after: nat, imported: Slice)
      requires Valid() && 2 <= after <= |toks| && Importable(imported)
      modifies this, tokens.arr, imported.arr
      ensures Valid() && fresh(repr - old(repr)) && snips == old(snips)
      ensures toks == old(toks)[..after - 2] + (old(View(imported)) + old(toks)[after..])
    {
      var tokensAfter := tokens.arr[tokens.off + after..tokens.off + tokens.len];
      assert tokensAfter == toks[after..];
      var inner := AppendTo(imported, tokensAfter);
      Extend(after - 2, inner.arr[inner.off..inner.off + inner.len]);
    }
  }
}
