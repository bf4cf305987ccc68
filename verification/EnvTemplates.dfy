/**
 What substitution leaves of a text with environment references (caddyfile/parse.go:422-448): every
 reference gives way to its value, in its place, and the rest stays.
 */
module EnvTemplates {
  import opened EnvRefs
  import opened Sequences

  // ---------------------------------------------------------------------------------------------
  // Finding and replacing
  // ---------------------------------------------------------------------------------------------

  lemma {:induction false} ReplaceNone(s: string, ref: string, val: string)
    requires ref != [] && Index(s, ref) == -1
    ensures ReplaceAll(s, ref, val) == s
    decreases |s|
  {
    if |s| >= |ref| {
      ReplaceNone(s[1..], ref, val);
    }
  }

  /** The first occurrence gives way to the value, what is before it stays, and the same goes on after it. */
  lemma {:induction false} ReplaceFirst(s: string, ref: string, val: string)
    requires ref != [] && Index(s, ref) >= 0
    ensures ReplaceAll(s, ref, val) ==
            s[..Index(s, ref)] + (val + ReplaceAll(s[Index(s, ref) + |ref|..], ref, val))
    decreases |s|
  {
    hide ReplaceAll, Index;
    ReplaceTurn(s, ref, val);
    IndexTurn(s, ref);
    var i := Index(s, ref);
    if i > 0 {
      ReplaceFirst(s[1..], ref, val);
      RestBehind(s, i, |ref|);
      ConcatAssociates([s[0]], s[1..][..i - 1], val + ReplaceAll(s[i + |ref|..], ref, val));
    } else {
      assert s[..0] == [];
    }
  }

  lemma {:induction false} RestBehind(s: string, i: nat, n: nat)
    requires 0 < i && i + n <= |s|
    ensures s[1..][i - 1 + n..] == s[i + n..] && s[..i] == [s[0]] + s[1..][..i - 1]
  {
  }

  lemma {:induction false} ReplaceTurn(s: string, ref: string, val: string)
    requires ref != [] && |s| >= |ref|
    ensures ReplaceAll(s, ref, val) ==
            if s[..|ref|] == ref then val + ReplaceAll(s[|ref|..], ref, val) else [s[0]] + ReplaceAll(s[1..], ref, val)
  {
  }

  lemma {:induction false} IndexTurn(s: string, sub: string)
    requires sub != [] && |s| >= |sub|
    ensures s[..|sub|] == sub <==> Index(s, sub) == 0
    ensures s[..|sub|] != sub ==> Index(s, sub) == if Index(s[1..], sub) == -1 then -1 else Index(s[1..], sub) + 1
  {
  }

  lemma {:induction false} OneAt(s: string, c: char, j: int)
    ensures OccursAt(s, [c], j) <==> 0 <= j < |s| && s[j] == c
  {
    assert 0 <= j < |s| ==> s[j..j + 1] == [s[j]];
  }

  lemma {:induction false} TwoAt(s: string, c: char, d: char, j: int)
    ensures OccursAt(s, [c, d], j) <==> 0 <= j < |s| - 1 && s[j] == c && s[j + 1] == d
  {
    assert 0 <= j < |s| - 1 ==> s[j..j + 2] == [s[j], s[j + 1]];
  }

  /** The index is the one place with an occurrence and none before it. */
  lemma {:induction false} IndexAt(s: string, sub: string, i: int)
    requires sub != [] && OccursAt(s, sub, i) && forall j :: 0 <= j < i ==> !OccursAt(s, sub, j)
    ensures Index(s, sub) == i
  {
    hide Index;
    IndexIsFirst(s, sub, i);
  }

  /** What is found in a text is found there whatever comes after it. */
  lemma {:induction false} IndexBefore(s: string, more: string, sub: string)
    requires sub != [] && Index(s, sub) >= 0
    ensures Index(s + more, sub) == Index(s, sub)
  {
    hide Index;
    var i, all := Index(s, sub), s + more;
    assert all[i..i + |sub|] == s[i..i + |sub|];
    forall j | 0 <= j < i
      ensures !OccursAt(all, sub, j)
    {
      if OccursAt(all, sub, j) {
        assert all[j..j + |sub|] == s[j..j + |sub|];
        IndexIsFirst(s, sub, j);
      }
    }
    IndexAt(all, sub, i);
  }

  // ---------------------------------------------------------------------------------------------
  // Markers
  // ---------------------------------------------------------------------------------------------

  /** The second character of the opening marker, in the two syntaxes. */
  function Sign(unix: bool): char {
    if unix then '$' else '%'
  }

  function Opening(unix: bool): string {
    ['{', Sign(unix)]
  }

  function Closing(unix: bool): string {
    if unix then "}" else "%}"
  }

  predicate Free(s: string, unix: bool) {
    Index(s, Opening(unix)) == -1
  }

  lemma {:induction false} FreeIff(s: string, unix: bool)
    ensures Free(s, unix) <==> forall j :: 0 <= j < |s| - 1 ==> !(s[j] == '{' && s[j + 1] == Sign(unix))
  {
    hide Index;
    var open := Opening(unix);
    TwoAt(s, '{', Sign(unix), Index(s, open));
    forall j | 0 <= j < |s| - 1 && s[j] == '{' && s[j + 1] == Sign(unix)
      ensures !Free(s, unix)
    {
      TwoAt(s, '{', Sign(unix), j);
      IndexIsFirst(s, open, j);
    }
  }

  /** No marker spans two texts if the first does not end in a brace, or the second does not start with the sign. */
  lemma {:induction false} FreeConcat(a: string, b: string, unix: bool)
    requires Free(a, unix) && Free(b, unix)
    requires a == [] || b == [] || a[|a| - 1] != '{' || b[0] != Sign(unix)
    ensures Free(a + b, unix)
  {
    hide Free;
    FreeIff(a, unix);
    FreeIff(b, unix);
    FreeIff(a + b, unix);
    var s := a + b;
    forall j | 0 <= j < |s| - 1
      ensures !(s[j] == '{' && s[j + 1] == Sign(unix))
    {
      if j >= |a| {
        assert s[j] == b[j - |a|] && s[j + 1] == b[j + 1 - |a|];
      }
    }
  }

  lemma {:induction false} BraceFreeIsFree(s: string, unix: bool)
    requires '{' !in s
    ensures Free(s, unix)
  {
    hide Free;
    FreeIff(s, unix);
  }

  /** Where a marker follows a text without one, it is found behind that text. */
  lemma {:induction false} OpeningAt(a: string, rest: string, unix: bool)
    requires Free(a, unix)
    ensures Index(a + (Opening(unix) + rest), Opening(unix)) == |a|
  {
    hide Index;
    var s, open := a + (Opening(unix) + rest), Opening(unix);
    assert s[|a|..|a| + 2] == open;
    forall j | 0 <= j < |a|
      ensures !OccursAt(s, open, j)
    {
      assert s[j..j + 2] == [s[j], s[j + 1]];
      if j + 1 < |a| {
        FreeIff(a, unix);
      }
    }
    IndexAt(s, open, |a|);
  }

  // ---------------------------------------------------------------------------------------------
  // One reference
  // ---------------------------------------------------------------------------------------------

  function RefText(name: string, unix: bool): string {
    Opening(unix) + (name + Closing(unix))
  }

  /** A name that can be referred to: it is not empty, and the closing marker is first found behind it. */
  predicate Names(name: string, unix: bool) {
    name != [] && Index(RefText(name, unix), Closing(unix)) == 2 + |name|
  }

  /** In the Unix syntax these are the names without a closing brace; in the other, those are among them. */
  lemma {:induction false} NamesIff(name: string)
    ensures Names(name, true) <==> name != [] && '}' !in name
    ensures name != [] && '}' !in name ==> Names(name, false)
  {
    hide Index;
    var s := RefText(name, true);
    assert s[2 + |name|] == '}';
    assert forall j :: 0 <= j < |name| ==> s[2 + j] == name[j];
    if name != [] && '}' !in name {
      FirstClosing(name, true);
      FirstClosing(name, false);
    } else if '}' in name {
      var j :| 0 <= j < |name| && name[j] == '}';
      assert s[2 + j..2 + j + 1] == [s[2 + j]];
      IndexIsFirst(s, "}", 2 + j);
    }
  }

  lemma {:induction false} FirstClosing(name: string, unix: bool)
    requires '}' !in name
    ensures Index(RefText(name, unix), Closing(unix)) == 2 + |name|
  {
    hide Index;
    var s, close, i := RefText(name, unix), Closing(unix), 2 + |name|;
    assert s[i..i + |close|] == close;
    forall j | 0 <= j < i
      ensures !OccursAt(s, close, j)
    {
      assert s[j] != '}' && (j + 1 < i ==> s[j + 1] != '}');
      OneAt(s, '}', j);
      TwoAt(s, '%', '}', j);
    }
    IndexAt(s, close, i);
  }
  /** A reference is nowhere before its opening marker. */
  lemma {:induction false} RefAt(s: string, name: string, unix: bool)
    ensures Free(s, unix) ==> Index(s, RefText(name, unix)) == -1
    ensures Index(s, RefText(name, unix)) >= 0 ==> Index(s, Opening(unix)) <= Index(s, RefText(name, unix))
  {
    hide Index;
    var ref, open := RefText(name, unix), Opening(unix);
    var j := Index(s, ref);
    if j >= 0 {
      assert s[j..j + 2] == s[j..j + |ref|][..2] == open;
      IndexIsFirst(s, open, j);
    }
  }

  /** One turn of the loop on a text whose first marker opens a reference to a name. */
  lemma {:induction false} RefFound(a: string, name: string, rest: string, unix: bool)
    requires Free(a, unix) && Names(name, unix)
    ensures var s := a + (RefText(name, unix) + rest);
            && !Settled(s, Opening(unix), Closing(unix))
            && FirstRef(s, Opening(unix), Closing(unix)) == RefText(name, unix)
            && Index(s, RefText(name, unix)) == |a|
  {
    hide Index, FirstRef;
    var ref, open, close := RefText(name, unix), Opening(unix), Closing(unix);
    var s := a + (ref + rest);
    assert ref + rest == open + ((name + close) + rest);
    OpeningAt(a, (name + close) + rest, unix);
    assert s[|a|..] == ref + rest;
    IndexBefore(ref, rest, close);
    FirstRefIs(s, ref, open, close);
    assert s[|a|..|a| + |ref|] == ref;
    IndexIsFirst(s, ref, |a|);
    RefAt(s, name, unix);
  }

  lemma {:induction false} FirstRefIs(s: string, ref: string, open: string, close: string)
    requires open != [] && close != [] && !Settled(s, open, close)
    requires var i := Index(s, open);
             i + |ref| <= |s| && s[i..i + |ref|] == ref && |ref| == Index(s[i..], close) + |close|
    ensures FirstRef(s, open, close) == ref
  {
  }

  /** The value of a reference is that of the name in it. */
  lemma {:induction false} ValueIs(env: Env, name: string, unix: bool)
    requires name != []
    ensures Value(env, RefText(name, unix), Opening(unix), Closing(unix)) == Getenv(env, name)
  {
    var ref := RefText(name, unix);
    assert ref[2..|ref| - |Closing(unix)|] == name;
  }

  /** One turn puts the value in the place of the one reference, and leaves the rest as it is. */
  lemma {:induction false} TurnReplaces(env: Env, a: string, name: string, b: string, unix: bool)
    requires Free(a, unix) && Free(b, unix) && Names(name, unix)
    ensures var s := a + (RefText(name, unix) + b);
            && !Settled(s, Opening(unix), Closing(unix))
            && Turn(env, s, Opening(unix), Closing(unix)) == a + (Getenv(env, name) + b)
  {
    hide Index, FirstRef, ReplaceAll, Settled, Value, RefText, Free;
    var ref, val := RefText(name, unix), Getenv(env, name);
    var s := a + (ref + b);
    RefFound(a, name, b, unix);
    ValueIs(env, name, unix);
    assert s[..|a|] == a && s[|a| + |ref|..] == b;
    ReplaceFirst(s, ref, val);
    RefAt(b, name, unix);
    ReplaceNone(b, ref, val);
  }

  /** What a text yields is determined. */
  lemma {:induction false} YieldsOne(env: Env, s: string, t: string, u: string)
    requires Yields(env, s, t) && Yields(env, s, u)
    ensures t == u
  {
    hide After, Settled;
    var n: nat, m: nat :| YieldsAfter(env, s, t, n, m);
    var k: nat, l: nat :| YieldsAfter(env, s, u, k, l);
    EnoughTurns(env, s, "{%", "%}", n, k);
    EnoughTurns(env, After(env, s, "{%", "%}", n), "{$", "}", m, l);
  }

  lemma {:induction false} OneTurn(env: Env, s: string, t: string, open: string, close: string)
    requires open != [] && close != [] && !Settled(s, open, close) && Turn(env, s, open, close) == t
    ensures After(env, s, open, close, 1) == t
  {
    hide Settled, Turn;
  }

  lemma {:induction false} FreeIsSettled(s: string, unix: bool)
    requires Free(s, unix)
    ensures Settled(s, Opening(unix), Closing(unix))
  {
  }

  /** A text of marker-free parts around a reference in the Unix syntax has no marker of the other. */
  lemma {:induction false} UnixIsFree(a: string, name: string, b: string)
    requires Free(a, false) && Free(b, false) && Free(name, false)
    ensures Free(a + (RefText(name, true) + b), false)
  {
    hide Free;
    FreeIff("{$", false);
    FreeIff("}", false);
    FreeConcat(name, "}", false);
    FreeConcat("{$", name + "}", false);
    FreeConcat(RefText(name, true), b, false);
    FreeConcat(a, RefText(name, true) + b, false);
  }

  /**
   A reference in a text without other markers gives way to the value of its name, in its place, as
   long as the value makes no marker there.
   */
  lemma {:induction false} UnixReference(env: Env, a: string, name: string, b: string)
    requires name != [] && '}' !in name && Free(name, false)
    requires Free(a, true) && Free(b, true) && Free(a, false) && Free(b, false)
    requires Free(a + (Getenv(env, name) + b), true)
    ensures forall t :: Yields(env, a + ("{$" + (name + "}") + b), t) <==> t == a + (Getenv(env, name) + b)
  {
    hide Free, After, Settled, Turn, Names;
    var s, r := a + (RefText(name, true) + b), a + (Getenv(env, name) + b);
    NamesIff(name);
    UnixIsFree(a, name, b);
    FreeIsSettled(s, false);
    AfterSettled(env, s, "{%", "%}", 0);
    TurnReplaces(env, a, name, b, true);
    OneTurn(env, s, r, "{$", "}");
    FreeIsSettled(r, true);
    assert YieldsAfter(env, s, r, 0, 1);
    forall t | Yields(env, s, t)
      ensures t == r
    {
      YieldsOne(env, s, t, r);
    }
  }

  lemma {:induction false} WindowsReference(env: Env, a: string, name: string, b: string)
    requires Names(name, false) && Free(a, false) && Free(b, false)
    requires Free(a + (Getenv(env, name) + b), false) && Free(a + (Getenv(env, name) + b), true)
    ensures forall t :: Yields(env, a + ("{%" + (name + "%}") + b), t) <==> t == a + (Getenv(env, name) + b)
  {
    hide Free, After, Settled, Turn, Names;
    var s, r := a + (RefText(name, false) + b), a + (Getenv(env, name) + b);
    TurnReplaces(env, a, name, b, false);
    OneTurn(env, s, r, "{%", "%}");
    FreeIsSettled(r, false);
    FreeIsSettled(r, true);
    AfterSettled(env, r, "{$", "}", 0);
    assert YieldsAfter(env, s, r, 1, 0);
    forall t | Yields(env, s, t)
      ensures t == r
    {
      YieldsOne(env, s, t, r);
    }
  }

  /** The value of a reference in the Windows syntax may be one in the other, which comes second. */
  lemma {:induction false} ReferenceToReference(env: Env, a: string, name: string, inner: string, b: string)
    requires Names(name, false) && Getenv(env, name) == "{$" + (inner + "}")
    requires inner != [] && '}' !in inner && Free(inner, false)
    requires Free(a, true) && Free(b, true) && Free(a, false) && Free(b, false)
    requires Free(a + (Getenv(env, inner) + b), true)
    ensures forall t :: Yields(env, a + ("{%" + (name + "%}") + b), t) <==> t == a + (Getenv(env, inner) + b)
  {
    hide Free, After, Settled, Turn, Names;
    var s, u, r := a + (RefText(name, false) + b), a + (RefText(inner, true) + b), a + (Getenv(env, inner) + b);
    TurnReplaces(env, a, name, b, false);
    OneTurn(env, s, u, "{%", "%}");
    UnixIsFree(a, inner, b);
    FreeIsSettled(u, false);
    NamesIff(inner);
    TurnReplaces(env, a, inner, b, true);
    OneTurn(env, u, r, "{$", "}");
    FreeIsSettled(r, true);
    assert YieldsAfter(env, s, r, 1, 1);
    forall t | Yields(env, s, t)
      ensures t == r
    {
      YieldsOne(env, s, t, r);
    }
  }

  // ---------------------------------------------------------------------------------------------
  // Any number of references
  // ---------------------------------------------------------------------------------------------

  /** A part of a text with references in either syntax. */
  datatype Chunk = Text(s: string) | Ref(name: string, unix: bool)

  function ChunkText(c: Chunk): string {
    if c.Text? then c.s else RefText(c.name, c.unix)
  }

  function Written(chunks: seq<Chunk>): string {
    if chunks == [] then [] else ChunkText(chunks[0]) + Written(chunks[1..])
  }

  /** The text with a value for every reference. */
  function Meant(env: Env, chunks: seq<Chunk>): string {
    if chunks == [] then []
    else (if chunks[0].Text? then chunks[0].s else Getenv(env, chunks[0].name)) + Meant(env, chunks[1..])
  }

  /** Text that holds no marker, and with which none begins. */
  predicate Quiet(s: string, unix: bool) {
    Free(s, unix) && (s == [] || s[|s| - 1] != '{')
  }

  /** Text is quiet, names have no braces and values no opening ones. */
  ghost predicate Orderly(env: Env, c: Chunk) {
    match c
    case Text(s) => Quiet(s, false) && Quiet(s, true)
    case Ref(name, _) => name != [] && '{' !in name && '}' !in name && '{' !in Getenv(env, name)
  }

  ghost predicate AllOrderly(env: Env, chunks: seq<Chunk>) {
    forall c :: c in chunks ==> Orderly(env, c)
  }

  /** The references to a name in one syntax, replaced by its value. */
  function Bind(chunks: seq<Chunk>, name: string, unix: bool, val: string): seq<Chunk> {
    if chunks == [] then []
    else [if chunks[0] == Ref(name, unix) then Text(val) else chunks[0]] + Bind(chunks[1..], name, unix, val)
  }

  predicate Refers(c: Chunk, unix: bool) {
    c.Ref? && c.unix == unix
  }

  /** The number of references in one syntax. */
  function Refs(chunks: seq<Chunk>, unix: bool): nat {
    if chunks == [] then 0 else (if Refers(chunks[0], unix) then 1 else 0) + Refs(chunks[1..], unix)
  }

  /** Nothing that is not a reference in a syntax has a marker of it. */
  lemma {:induction false} OthersQuiet(env: Env, c: Chunk, unix: bool)
    requires Orderly(env, c) && !Refers(c, unix)
    ensures Quiet(ChunkText(c), unix)
  {
    if c.Ref? {
      hide Free;
      var s := ChunkText(c);
      assert s == ['{', Sign(!unix)] + (c.name + Closing(!unix));
      FreeIff(s, unix);
      assert forall j :: 0 < j < |s| ==> s[j] != '{';
    }
  }

  /** Quiet text is passed over by a search for references. */
  lemma {:induction false} PassesOver(t: string, rest: string, name: string, unix: bool, val: string)
    requires Quiet(t, unix)
    ensures ReplaceAll(t + rest, RefText(name, unix), val) == t + ReplaceAll(rest, RefText(name, unix), val)
    decreases |t|
  {
    hide ReplaceAll, Quiet, RefText;
    var ref := RefText(name, unix);
    RefLong(name, unix);
    if t == [] {
      assert t + rest == rest;
    } else {
      assert (t + rest)[1..] == t[1..] + rest;
      QuietRest(t, unix);
      PassesOver(t[1..], rest, name, unix, val);
      assert t == [t[0]] + t[1..];
      if |t + rest| >= |ref| {
        NotHere(t, rest, name, unix);
        ReplaceTurn(t + rest, ref, val);
      } else {
        ReplaceShort(t + rest, ref, val);
        ReplaceShort(rest, ref, val);
      }
    }
  }

  lemma {:induction false} RefLong(name: string, unix: bool)
    ensures |RefText(name, unix)| >= 3
  {
  }

  lemma {:induction false} ReplaceShort(s: string, ref: string, val: string)
    requires ref != [] && |s| < |ref|
    ensures ReplaceAll(s, ref, val) == s
  {
  }

  lemma {:induction false} QuietRest(t: string, unix: bool)
    requires Quiet(t, unix) && t != []
    ensures Quiet(t[1..], unix)
  {
    hide Free;
    FreeIff(t, unix);
    FreeIff(t[1..], unix);
  }

  lemma {:induction false} NotHere(t: string, rest: string, name: string, unix: bool)
    requires Quiet(t, unix) && t != [] && |t + rest| >= |RefText(name, unix)|
    ensures (t + rest)[..|RefText(name, unix)|] != RefText(name, unix)
  {
    hide Free;
    FreeIff(t, unix);
    var ref, s := RefText(name, unix), t + rest;
    assert s[..|ref|][0] == t[0] && s[..|ref|][1] == s[1];
    assert |t| > 1 ==> s[1] == t[1];
  }
  /** So is a reference to another name. */
  lemma {:induction false} PassesOverOther(other: string, rest: string, name: string, unix: bool, val: string)
    requires other != name && '{' !in other && '}' !in other && '}' !in name
    ensures ReplaceAll(RefText(other, unix) + rest, RefText(name, unix), val) ==
            RefText(other, unix) + ReplaceAll(rest, RefText(name, unix), val)
  {
    hide ReplaceAll, Free;
    var t, ref := RefText(other, unix), RefText(name, unix);
    assert (t + rest)[1..] == t[1..] + rest && t == ['{'] + t[1..] && (t + rest)[0] == '{';
    FreeIff(t[1..], unix);
    assert forall j :: 0 <= j < |t| - 1 ==> t[1..][j] != '{';
    PassesOver(t[1..], rest, name, unix, val);
    ConcatAssociates(['{'], t[1..], ReplaceAll(rest, ref, val));
    if |t + rest| >= |ref| {
      if (t + rest)[..|ref|] == ref {
        SameName(other, rest, name, unix);
      }
      ReplaceTurn(t + rest, ref, val);
    } else {
      ReplaceShort(t + rest, ref, val);
      ReplaceShort(rest, ref, val);
    }
  }

  /** References to two names are told apart by their closing markers. */
  lemma {:induction false} SameName(other: string, rest: string, name: string, unix: bool)
    requires '}' !in other && '}' !in name && |RefText(other, unix) + rest| >= |RefText(name, unix)|
    requires (RefText(other, unix) + rest)[..|RefText(name, unix)|] == RefText(name, unix)
    ensures other == name
  {
    var t, ref := RefText(other, unix), RefText(name, unix);
    var s := t + rest;
    assert forall i :: 0 <= i < |ref| ==> s[i] == ref[i];
    assert forall i :: 0 <= i < |name| ==> ref[i + 2] == name[i];
    assert forall i :: 0 <= i < |other| ==> s[i + 2] == other[i];
    assert ref[|ref| - 1] == '}' && s[|t| - 1] == '}';
    assert |t| == |ref|;
  }

  lemma {:induction false} OneValue(rest: string, name: string, unix: bool, val: string)
    ensures ReplaceAll(RefText(name, unix) + rest, RefText(name, unix), val) ==
            val + ReplaceAll(rest, RefText(name, unix), val)
  {
    hide ReplaceAll;
    var ref := RefText(name, unix);
    assert (ref + rest)[..|ref|] == ref && (ref + rest)[|ref|..] == rest;
    ReplaceTurn(ref + rest, ref, val);
  }

  /** Replacing a reference everywhere in a text binds its name in all the chunks. */
  lemma {:induction false} ReplaceBinds(env: Env, chunks: seq<Chunk>, name: string, unix: bool, val: string)
    requires AllOrderly(env, chunks) && '}' !in name
    ensures ReplaceAll(Written(chunks), RefText(name, unix), val) == Written(Bind(chunks, name, unix, val))
    decreases |chunks|
  {
    hide ReplaceAll, RefText, Quiet, Getenv;
    var ref := RefText(name, unix);
    if chunks == [] {
      ReplaceNothing(name, unix, val);
    } else {
      var c, rest := chunks[0], Written(chunks[1..]);
      ReplaceBinds(env, chunks[1..], name, unix, val);
      assert Orderly(env, c);
      var bound := Bind(chunks, name, unix, val);
      assert bound[1..] == Bind(chunks[1..], name, unix, val);
      if !Refers(c, unix) {
        OthersQuiet(env, c, unix);
        PassesOver(ChunkText(c), rest, name, unix, val);
      } else if c.name == name {
        OneValue(rest, name, unix, val);
      } else {
        PassesOverOther(c.name, rest, name, unix, val);
      }
    }
  }

  lemma {:induction false} ReplaceNothing(name: string, unix: bool, val: string)
    ensures ReplaceAll([], RefText(name, unix), val) == []
  {
  }

  /** A text without references has no marker; another is a quiet text, a reference and the rest. */
  lemma {:induction false} NoReference(env: Env, chunks: seq<Chunk>, unix: bool)
    requires AllOrderly(env, chunks) && Refs(chunks, unix) == 0
    ensures Quiet(Written(chunks), unix)
    decreases |chunks|
  {
    hide Orderly, Quiet, ChunkText;
    if chunks == [] {
      NothingQuiet(unix);
    } else {
      OthersQuiet(env, chunks[0], unix);
      NoReference(env, chunks[1..], unix);
      QuietConcat(ChunkText(chunks[0]), Written(chunks[1..]), unix);
    }
  }

  lemma {:induction false} FirstReference(env: Env, chunks: seq<Chunk>, unix: bool)
    returns (before: string, name: string, rest: string)
    requires AllOrderly(env, chunks) && Refs(chunks, unix) > 0
    ensures Quiet(before, unix) && Written(chunks) == before + (RefText(name, unix) + rest)
    ensures Ref(name, unix) in chunks
    decreases |chunks|
  {
    hide Orderly, Free, RefText, Quiet;
    if Refers(chunks[0], unix) {
      before, name, rest := [], chunks[0].name, Written(chunks[1..]);
      NothingQuiet(unix);
      assert [] + Written(chunks) == Written(chunks);
    } else {
      var a;
      a, name, rest := FirstReference(env, chunks[1..], unix);
      OthersQuiet(env, chunks[0], unix);
      var t := ChunkText(chunks[0]);
      QuietConcat(t, a, unix);
      ConcatAssociates(t, a, RefText(name, unix) + rest);
      before := t + a;
    }
  }

  lemma {:induction false} NothingQuiet(unix: bool)
    ensures Quiet([], unix)
  {
    hide Free;
    FreeIff([], unix);
  }

  lemma {:induction false} QuietConcat(a: string, b: string, unix: bool)
    requires Quiet(a, unix) && Quiet(b, unix)
    ensures Quiet(a + b, unix)
  {
    hide Free;
    FreeConcat(a, b, unix);
  }

  /** Binding a name to its value changes no meaning, and leaves fewer references. */
  lemma {:induction false} BindMeans(env: Env, chunks: seq<Chunk>, name: string, unix: bool)
    requires AllOrderly(env, chunks) && '{' !in Getenv(env, name)
    ensures var bound := Bind(chunks, name, unix, Getenv(env, name));
            && AllOrderly(env, bound) && Meant(env, bound) == Meant(env, chunks)
            && Refs(bound, !unix) == Refs(chunks, !unix) && Refs(bound, unix) <= Refs(chunks, unix)
            && (Ref(name, unix) in chunks ==> Refs(bound, unix) < Refs(chunks, unix))
    decreases |chunks|
  {
    hide Orderly, Getenv;
    if chunks != [] {
      var val, c := Getenv(env, name), chunks[0];
      BindMeans(env, chunks[1..], name, unix);
      var first := if c == Ref(name, unix) then Text(val) else c;
      var rest := Bind(chunks[1..], name, unix, val);
      assert ([first] + rest)[1..] == rest;
      ValueOrderly(env, val);
      assert c in chunks && (Ref(name, unix) in chunks ==> c == Ref(name, unix) || Ref(name, unix) in chunks[1..]);
    }
  }

  lemma {:induction false} ValueOrderly(env: Env, val: string)
    requires '{' !in val
    ensures Orderly(env, Text(val))
  {
    hide Free;
    BraceFreeIsFree(val, true);
    BraceFreeIsFree(val, false);
  }

  /** One pass binds every reference in its syntax. */
  lemma {:induction false} PassBinds(env: Env, chunks: seq<Chunk>, unix: bool) returns (n: nat, bound: seq<Chunk>)
    requires AllOrderly(env, chunks)
    ensures AllOrderly(env, bound) && Refs(bound, unix) == 0 && Refs(bound, !unix) == Refs(chunks, !unix)
    ensures Meant(env, bound) == Meant(env, chunks)
    ensures After(env, Written(chunks), Opening(unix), Closing(unix), n) == Written(bound)
    ensures Settled(Written(bound), Opening(unix), Closing(unix))
    decreases Refs(chunks, unix)
  {
    hide Settled, Turn, Written, Meant, Bind, FirstRef, ReplaceAll, Free, Value, Index;
    var open, close := Opening(unix), Closing(unix);
    if Refs(chunks, unix) == 0 {
      n, bound := 0, chunks;
      NoReference(env, chunks, unix);
      FreeIsSettled(Written(chunks), unix);
    } else {
      var before, name, rest := FirstReference(env, chunks, unix);
      var val, s := Getenv(env, name), Written(chunks);
      assert Orderly(env, Ref(name, unix));
      var next := Bind(chunks, name, unix, val);
      FirstTurn(env, before, name, rest, unix);
      ReplaceBinds(env, chunks, name, unix, val);
      BindMeans(env, chunks, name, unix);
      n, bound := PassBinds(env, next, unix);
      n := n + 1;
      AfterMore(env, s, Written(next), open, close, n);
    }
  }

  lemma {:induction false} FirstTurn(env: Env, before: string, name: string, rest: string, unix: bool)
    requires Quiet(before, unix) && name != [] && '}' !in name
    ensures var s := before + (RefText(name, unix) + rest);
            && !Settled(s, Opening(unix), Closing(unix))
            && Turn(env, s, Opening(unix), Closing(unix)) == ReplaceAll(s, RefText(name, unix), Getenv(env, name))
  {
    hide Settled, FirstRef, ReplaceAll, Value, Index;
    NamesIff(name);
    RefFound(before, name, rest, unix);
    ValueIs(env, name, unix);
  }

  lemma {:induction false} AfterMore(env: Env, s: string, t: string, open: string, close: string, n: nat)
    requires open != [] && close != [] && !Settled(s, open, close) && Turn(env, s, open, close) == t && n > 0
    ensures After(env, s, open, close, n) == After(env, t, open, close, n - 1)
  {
    hide Settled, Turn;
  }

  lemma {:induction false} NothingLeft(env: Env, chunks: seq<Chunk>)
    requires Refs(chunks, true) == 0 && Refs(chunks, false) == 0
    ensures Written(chunks) == Meant(env, chunks)
    decreases |chunks|
  {
    if chunks != [] {
      NothingLeft(env, chunks[1..]);
    }
  }

  /**
   Substitution puts the value of every reference in its place, in both syntaxes and any order, and
   changes nothing else.
   */
  lemma {:induction false} SubstitutionMeans(env: Env, chunks: seq<Chunk>)
    requires AllOrderly(env, chunks)
    ensures forall t :: Yields(env, Written(chunks), t) <==> t == Meant(env, chunks)
  {
    hide Settled, After, Written, Meant, Refs, AllOrderly;
    var s, r := Written(chunks), Meant(env, chunks);
    var n, half := PassBinds(env, chunks, false);
    var m, done := PassBinds(env, half, true);
    NothingLeft(env, done);
    assert YieldsAfter(env, s, r, n, m);
    forall t | Yields(env, s, t)
      ensures t == r
    {
      YieldsOne(env, s, t, r);
    }
  }
}
