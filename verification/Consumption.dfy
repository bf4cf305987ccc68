/**
 What the scans of the grammar do with tokens that are in order (caddyfile/parse.go): they take them
 and go on with the rest, whatever the rest is. This is the other half of conservation; with it an
 input is accepted exactly when it can be cut into pieces.
 */
module Consumption {
  import opened ClosingBrace
  import opened Conservation
  import opened Dispensing
  import opened Grammar
  import opened Lexer
  import opened Pieces
  import opened Sequences
  import opened Wrappers

  // ---------------------------------------------------------------------------------------------
  // Directives
  // ---------------------------------------------------------------------------------------------

  /** A turn of the directive scan on a token that is no import. */
  lemma {:induction false} DirectiveTakes(ctx: Context, snips: Snippets, s: Scan, nesting: nat)
    requires s.unread != [] && s.unread[0].text != "import" && nesting + BraceStep(s.unread[0]) >= 0
    requires nesting > 0 || !StartsAnother(s.last, s.unread[0])
    ensures var t' := SubstToken(ctx, s.unread[0]);
            ScanDirective(ctx, snips, s, nesting) ==
            ScanDirective(ctx, snips, Scan(t', s.unread[1..], s.taken + [t'], s.imports),
                          nesting + BraceStep(s.unread[0]))
  {
  }

  /** With some braces open, the tokens never close more than that. */
  ghost predicate NeverBelow(ts: seq<Token>, nesting: int) {
    forall k :: 0 <= k <= |ts| ==> nesting + Depth(ts[..k]) >= 0
  }

  lemma {:induction false} EndNotBelow(ts: seq<Token>, nesting: int)
    requires NeverBelow(ts, nesting)
    ensures nesting + Depth(ts) >= 0 && (ts == [] ==> Depth(ts) == 0)
  {
    assert ts[..|ts|] == ts;
  }

  /** A directive goes on over tokens that start no other and do not close too much. */
  lemma {:induction false} DirectiveGoesOn(ctx: Context, snips: Snippets, s: Scan, nesting: nat, tail: seq<Token>,
                                           rest: seq<Token>)
    requires s.unread == tail + rest && ImportFree(ctx, tail) && Inside(ctx, s.last, tail, nesting)
    requires NeverBelow(tail, nesting)
    ensures nesting + Depth(tail) >= 0
    ensures ScanDirective(ctx, snips, s, nesting) ==
            ScanDirective(ctx, snips,
                          Scan(Before(ctx, s.last, tail, |tail|), rest, s.taken + SubstAll(ctx, tail), s.imports),
                          nesting + Depth(tail))
    decreases |tail|
  {
    hide ScanDirective, StartsAnother, Depth, BraceStep, Inside, NeverBelow, SubstToken;
    EndNotBelow(tail, nesting);
    if tail == [] {
      assert tail + rest == rest && s.taken + SubstAll(ctx, tail) == s.taken;
    } else {
      var t, tail' := tail[0], tail[1..];
      var t' := SubstToken(ctx, t);
      var s' := Scan(t', tail' + rest, s.taken + [t'], s.imports);
      assert s.unread[0] == t && s.unread[1..] == tail' + rest && t in tail;
      FirstInside(ctx, s.last, tail, nesting);
      DirectiveTakes(ctx, snips, s, nesting);
      SuffixImportFree(ctx, tail', tail);
      DirectiveGoesOn(ctx, snips, s', nesting + BraceStep(t), tail', rest);
      assert SubstAll(ctx, tail) == [t'] + SubstAll(ctx, tail');
      ConcatAssociates(s.taken, [t'], SubstAll(ctx, tail'));
      assert Before(ctx, t', tail', |tail'|) == Before(ctx, s.last, tail, |tail|);
    }
  }

  lemma {:induction false} FirstInside(ctx: Context, last: Token, tail: seq<Token>, nesting: int)
    requires tail != [] && Inside(ctx, last, tail, nesting)
    requires NeverBelow(tail, nesting)
    ensures nesting > 0 || !StartsAnother(last, tail[0])
    ensures Inside(ctx, SubstToken(ctx, tail[0]), tail[1..], nesting + BraceStep(tail[0]))
    ensures NeverBelow(tail[1..], nesting + BraceStep(tail[0])) && Depth(tail) == BraceStep(tail[0]) + Depth(tail[1..])
    ensures nesting + BraceStep(tail[0]) >= 0
  {
    hide StartsAnother, BraceStep;
    var rest, step := tail[1..], BraceStep(tail[0]);
    assert tail[..0] == [];
    assert nesting + Depth(tail[..0]) > 0 || !StartsAnother(Before(ctx, last, tail, 0), tail[0]);
    forall k | 0 <= k <= |rest|
      ensures Depth(tail[..k + 1]) == step + Depth(rest[..k])
    {
      assert tail[..k + 1][1..] == rest[..k] && tail[..k + 1][0] == tail[0];
    }
    forall k | 0 <= k <= |rest|
      ensures nesting + step + Depth(rest[..k]) >= 0
    {
      assert nesting + Depth(tail[..k + 1]) >= 0;
    }
    assert rest[..0] == [];
    forall j | 0 <= j < |rest|
      ensures || nesting + step + Depth(rest[..j]) > 0
              || !StartsAnother(Before(ctx, SubstToken(ctx, tail[0]), rest, j), rest[j])
    {
      assert Before(ctx, SubstToken(ctx, tail[0]), rest, j) == Before(ctx, last, tail, j + 1);
      assert nesting + Depth(tail[..j + 1]) > 0 || !StartsAnother(Before(ctx, last, tail, j + 1), tail[j + 1]);
    }
  }

  lemma {:induction false} DirectiveStops(ctx: Context, snips: Snippets, s: Scan)
    requires s.unread != [] ==> StartsAnother(s.last, s.unread[0])
    ensures ScanDirective(ctx, snips, s, 0) == Ok(s)
  {
  }

  /** A directive that was collected from some tokens is collected from them again. */
  lemma {:induction false} DirectiveComplete(ctx: Context, snips: Snippets, seg: Segment, raw: seq<Token>,
                                             rest: seq<Token>, imports: nat)
    requires Collected(ctx, seg, raw) && ImportFree(ctx, raw) && (rest != [] ==> EndsAfter([seg], rest[0]))
    ensures seg.tokens != []
    ensures ScanDirective(ctx, snips, Scan(raw[0], raw[1..] + rest, [raw[0]], imports), 0) ==
            Ok(Scan(seg.tokens[|seg.tokens| - 1], rest, seg.tokens, imports))
  {
    hide ScanDirective, StartsAnother, Inside, Depth;
    var s := Scan(raw[0], raw[1..] + rest, [raw[0]], imports);
    SuffixImportFree(ctx, raw[1..], raw);
    DirectiveGoesOn(ctx, snips, s, 0, raw[1..], rest);
    var last := Before(ctx, raw[0], raw[1..], |raw[1..]|);
    assert seg.tokens[|seg.tokens| - 1] == last;
    DirectiveStops(ctx, snips, Scan(last, rest, seg.tokens, imports));
  }

  // ---------------------------------------------------------------------------------------------
  // Bodies
  // ---------------------------------------------------------------------------------------------

  lemma {:induction false} BodyTakes(ctx: Context, snips: Snippets, b: Body, s: Scan)
    requires b.unread != [] && b.unread[0].text != "}" && b.unread[0].text != "import"
    requires ValidDirective(ctx, Subst(ctx, b.unread[0].text))
    requires ScanDirective(ctx, snips, Scan(b.unread[0], b.unread[1..], [b.unread[0]], b.imports), 0) == Ok(s)
    ensures ScanBody(ctx, snips, b) ==
            ScanBody(ctx, snips, Body(Some(s.last), s.unread,
                                      b.segs + [Segment(Subst(ctx, b.unread[0].text), s.taken)], s.imports))
  {
    hide ScanDirective, ValidDirective, Subst;
  }

  /** Where the cursor is after some directives: on the last token of the last one. */
  function LastOf(segs: seq<Segment>, last: Option<Token>): Option<Token> {
    if segs == [] || segs[|segs| - 1].tokens == [] then last
    else Some(segs[|segs| - 1].tokens[|segs[|segs| - 1].tokens| - 1])
  }

  /** A body goes on over tokens that its directives cover. */
  lemma {:induction false} BodyGoesOn(ctx: Context, snips: Snippets, b: Body, segs: seq<Segment>, raw: seq<Token>,
                                      rest: seq<Token>)
    requires b.unread == raw + rest && ImportFree(ctx, raw) && Covers(ctx, segs, raw) && LaterHeads(segs)
    requires rest != [] ==> EndsAfter(segs, rest[0])
    ensures ScanBody(ctx, snips, b) == ScanBody(ctx, snips, Body(LastOf(segs, b.last), rest, b.segs + segs, b.imports))
    decreases |segs|
  {
    hide ScanBody, ScanDirective, StartsAnother, Collected;
    if segs == [] {
      assert raw + rest == rest && b.segs + segs == b.segs;
    } else {
      var n, seg := |segs[0].tokens|, segs[0];
      var first, raw' := raw[..n], raw[n..];
      FirstEnds(ctx, segs, raw, rest);
      CollectedHead(ctx, seg, first);
      CollectedStarts(ctx, seg, first);
      assert first + (raw' + rest) == raw + rest by {
        assert first + raw' == raw;
        ConcatAssociates(first, raw', rest);
      }
      PrefixImportFree(ctx, raw, n);
      SuffixImportFree(ctx, raw', raw);
      DirectiveComplete(ctx, snips, seg, first, raw' + rest, b.imports);
      var last := seg.tokens[|seg.tokens| - 1];
      assert b.unread[0] == first[0] && b.unread[1..] == first[1..] + (raw' + rest);
      assert first[0] in first;
      BodyTakes(ctx, snips, b, Scan(last, raw' + rest, seg.tokens, b.imports));
      var b' := Body(Some(last), raw' + rest, b.segs + [seg], b.imports);
      LaterRest(segs);
      RestEnds(segs, rest);
      BodyGoesOn(ctx, snips, b', segs[1..], raw', rest);
      ConcatAssociates(b.segs, [seg], segs[1..]);
      assert [seg] + segs[1..] == segs;
      LastOfRest(segs, b.last);
    }
  }

  lemma {:induction false} CollectedStarts(ctx: Context, seg: Segment, raw: seq<Token>)
    requires Collected(ctx, seg, raw)
    ensures raw != [] && raw[0].text != "}" && seg.dir == Subst(ctx, raw[0].text) && ValidDirective(ctx, seg.dir)
    ensures |seg.tokens| == |raw|
  {
  }

  lemma {:induction false} PrefixImportFree(ctx: Context, ts: seq<Token>, n: nat)
    requires ImportFree(ctx, ts) && n <= |ts|
    ensures ImportFree(ctx, ts[..n])
  {
    assert forall t :: t in ts[..n] ==> t in ts;
  }

  lemma {:induction false} LaterRest(segs: seq<Segment>)
    requires LaterHeads(segs) && segs != []
    ensures LaterHeads(segs[1..])
  {
    forall i | 0 < i < |segs[1..]|
      ensures Follows(segs[1..][i - 1], segs[1..][i])
    {
      assert Follows(segs[i], segs[i + 1]);
    }
  }

  lemma {:induction false} RestEnds(segs: seq<Segment>, rest: seq<Token>)
    requires segs != [] && (rest != [] ==> EndsAfter(segs, rest[0]))
    ensures rest != [] ==> EndsAfter(segs[1..], rest[0])
  {
    if |segs| > 1 {
      assert segs[1..][|segs[1..]| - 1] == segs[|segs| - 1];
    }
  }

  lemma {:induction false} LastOfRest(segs: seq<Segment>, last: Option<Token>)
    requires segs != [] && segs[0].tokens != []
    ensures LastOf(segs, last) == LastOf(segs[1..], Some(segs[0].tokens[|segs[0].tokens| - 1])) ||
            segs[|segs| - 1].tokens == []
  {
  }

  /** The first directive ends where the next one starts, or with all of them. */
  lemma {:induction false} FirstEnds(ctx: Context, segs: seq<Segment>, raw: seq<Token>, rest: seq<Token>)
    requires segs != [] && Covers(ctx, segs, raw) && LaterHeads(segs) && (rest != [] ==> EndsAfter(segs, rest[0]))
    ensures |segs[0].tokens| <= |raw|
    ensures var after := raw[|segs[0].tokens|..] + rest; after != [] ==> EndsAfter([segs[0]], after[0])
    ensures segs[|segs| - 1].tokens != []
  {
    hide Collected, StartsAnother;
    var n, k := |segs[0].tokens|, |segs| - 1;
    CoversAt(ctx, segs, raw, k);
    CollectedHead(ctx, segs[k], raw[Offset(segs, k)..Offset(segs, k) + |segs[k].tokens|]);
    if |segs| > 1 {
      assert Follows(segs[0], segs[1]);
      CollectedHead(ctx, segs[1], raw[n..][..|segs[1].tokens|]);
      assert (raw[n..] + rest)[0] == raw[n..][0];
    } else {
      assert raw[n..] == [];
    }
  }

  // ---------------------------------------------------------------------------------------------
  // Addresses and snippets
  // ---------------------------------------------------------------------------------------------

  /** A turn of the address scan on a token that is no import. */
  lemma {:induction false} AddressTakes(ctx: Context, snips: Snippets, a: Addresses)
    requires a.at != [] && Subst(ctx, a.at[0].text) != "import"
    ensures var tkn := Subst(ctx, a.at[0].text);
            var b := AddKey(a, tkn);
            ScanAddresses(ctx, snips, a) ==
            if tkn == "{" then if a.expecting then Err(ExpectedAddress) else Ok(a)
            else if |a.at| < 2 then if b.expecting then Err(UnexpectedEof) else Ok(b.(eof := true))
            else
              var c := b.(prev := Some(a.at[0]), at := a.at[1..]);
              if !c.expecting && NewLine(a.at[0], a.at[1]) then Ok(c) else ScanAddresses(ctx, snips, c)
  {
  }

  /** The addresses after the first one. */
  lemma {:induction false} AddressRest(ctx: Context, before: bool, at: seq<Token>, n: nat)
    requires AddressPart(ctx, before, at, n) && 0 < n
    ensures at != [] && n <= |at| && Subst(ctx, at[0].text) != "{"
    ensures n > 1 ==> Announces(ctx, before, at[..1]) || !NewLine(at[0], at[1])
    ensures n == 1 ==> !Announces(ctx, before, at[..1])
    ensures n == 1 && |at| > 1 ==> Subst(ctx, at[1].text) == "{" || NewLine(at[0], at[1])
    ensures n > 1 ==> AddressPart(ctx, Announces(ctx, before, at[..1]), at[1..], n - 1)
  {
    hide Announces, NewLine, Subst;
    var rest, next := at[1..], Announces(ctx, before, at[..1]);
    forall i | 0 < i <= n
      ensures Announces(ctx, before, at[..i]) == Announces(ctx, next, rest[..i - 1])
    {
      AnnouncesFirst(ctx, before, at, i);
    }
    forall i | 0 < i < n - 1
      ensures Announces(ctx, next, rest[..i]) || !NewLine(rest[i - 1], rest[i])
    {
      assert Announces(ctx, before, at[..i + 1]) || !NewLine(at[i], at[i + 1]);
    }
    if n > 1 {
      assert forall i :: 0 <= i < n - 1 ==> rest[i] == at[i + 1];
      assert n < |at| ==> rest[n - 1] == at[n] && rest[n - 2] == at[n - 1];
    }
  }

  /** Where the address scan stands after its first n tokens. */
  function AfterAddresses(ctx: Context, a: Addresses, n: nat): Addresses
    requires n <= |a.at|
  {
    var keys := a.keys + KeysIn(ctx, a.at[..n]);
    if n < |a.at| then
      Addresses(if n == 0 then a.prev else Some(a.at[n - 1]), a.at[n..], keys, false, false, a.imports)
    else
      Addresses(if n <= 1 then a.prev else Some(a.at[n - 2]), if n == 0 then [] else a.at[n - 1..], keys, false, true,
                a.imports)
  }

  lemma {:induction false} AddressesGoOn(ctx: Context, snips: Snippets, a: Addresses, n: nat)
    requires a.at != [] && !a.eof && AddressPart(ctx, a.expecting, a.at, n) && ImportFree(ctx, a.at[..n])
    ensures ScanAddresses(ctx, snips, a) == Ok(AfterAddresses(ctx, a, n))
    decreases n
  {
    hide ScanAddresses, AddKey, KeyIn, KeysIn, Announces, NewLine, AddressPart, Subst;
    NoKeys(ctx, a.expecting);
    if n == 0 {
      BraceFirst(ctx, a.expecting, a.at);
      AddressTakes(ctx, snips, a);
      assert a.at[..0] == [] && a.keys + [] == a.keys && a.at[0..] == a.at;
    } else {
      AddressRest(ctx, a.expecting, a.at, n);
      assert a.at[..n][0] == a.at[0] && a.at[0] in a.at[..n];
      AddressTakes(ctx, snips, a);
      AddKeyIs(ctx, a);
      KeysFirst(ctx, a.at, n);
      var c := AddKey(a, Subst(ctx, a.at[0].text)).(prev := Some(a.at[0]), at := a.at[1..]);
      assert a.at[1..][..0] == [];
      assert a.keys + (KeyIn(ctx, a.at[0]) + []) == a.keys + KeyIn(ctx, a.at[0]);
      if n == 1 {
        if |a.at| > 1 && !NewLine(a.at[0], a.at[1]) {
          AddressTakes(ctx, snips, c);
        }
        assert |a.at| == 1 ==> a.at[0..] == a.at;
      } else {
        assert a.at[..n][1..] == c.at[..n - 1];
        SuffixImportFree(ctx, c.at[..n - 1], a.at[..n]);
        AddressesGoOn(ctx, snips, c, n - 1);
        ConcatAssociates(a.keys, KeyIn(ctx, a.at[0]), KeysIn(ctx, c.at[..n - 1]));
        AfterFirst(ctx, a, c, n);
      }
    }
  }

  lemma {:induction false} BraceFirst(ctx: Context, before: bool, at: seq<Token>)
    requires AddressPart(ctx, before, at, 0) && at != []
    ensures Subst(ctx, at[0].text) == "{" && !before
  {
    assert at[..0] == [];
  }

  lemma {:induction false} AfterFirst(ctx: Context, a: Addresses, c: Addresses, n: nat)
    requires 1 < n <= |a.at| && c.at == a.at[1..] && c.prev == Some(a.at[0]) && c.imports == a.imports
    requires c.keys + KeysIn(ctx, c.at[..n - 1]) == a.keys + KeysIn(ctx, a.at[..n])
    ensures AfterAddresses(ctx, c, n - 1) == AfterAddresses(ctx, a, n)
  {
    hide KeysIn;
    if n < |a.at| {
      assert c.at[n - 1..] == a.at[n..];
    } else {
      assert c.at[n - 2..] == a.at[n - 1..];
    }
  }

  /** A snippet that is closed is stored. */
  lemma {:induction false} SnippetComplete(s: Stored, held: seq<Token>, end: Token, after: seq<Token>)
    requires s.tokens == [] && s.unread == held + ([end] + after) && Closes(held, 0) && end.text == "}"
    ensures ScanSnippet(s, 1) == Ok(Stored(end, after, held))
  {
    hide ScanSnippet, Closes;
    SnippetConserves(s, 1);
    var r := ScanSnippet(s, 1);
    SnippetCloses(s.unread, held, end, after);
    if r.Ok? {
      var held', end' := HeldBy(s, r.value);
      ConcatAssociates(held', [end'], r.value.unread);
      HeldNotShorter(held, end, after, held', [end'] + r.value.unread);
      HeldNotShorter(held', end', r.value.unread, held, [end] + after);
      SameStart(held, [end] + after, held', [end'] + r.value.unread);
      SameFirst(end, after, end', r.value.unread);
    }
  }

  lemma {:induction false} SnippetCloses(ts: seq<Token>, held: seq<Token>, end: Token, after: seq<Token>)
    requires ts == held + ([end] + after) && Closes(held, 0) && end.text == "}"
    ensures |held| + 1 <= |ts| && Depth(ts[..|held| + 1]) < 0
  {
    assert ts[..|held| + 1] == held + [end];
    DepthConcat(held, [end]);
    assert [end][1..] == [] && Depth([end]) == -1;
  }

  // ---------------------------------------------------------------------------------------------
  // Pieces
  // ---------------------------------------------------------------------------------------------

  /** An opened site without a closing brace of its own ends with a token that reads as one. */
  ghost predicate Closed(ctx: Context, p: Piece) {
    p.Site? && p.open != [] && p.close == [] ==> ReadsAsBrace(ctx, p.raw)
  }

  /** The token under the cursor after a piece that is not the end of the input. */
  function LastSeen(p: Piece, last: Option<Token>): Option<Token> {
    match p
    case Site(_, _, _, close, _) => if close == [] then last else Some(close[0])
    case Snippet(_, _, _, end, _) => Some(end)
    case Bare(_) => last
  }

  /** The parser's answer to a piece at the start of its tokens. */
  ghost predicate Taken(ctx: Context, snips: Snippets, p: Piece, after: seq<Token>, imports: nat, r: Result<Block>) {
    && r.Ok? && r.value.unread == after && r.value.imports == imports && Kept(r.value) == BlockOf(ctx, p)
    && r.value.snips == SnippetsAfter(p, snips) && (after != [] ==> r.value.last == LastSeen(p, r.value.last))
  }

  /** The body of a site is read to its end. */
  lemma {:induction false} SiteBody(ctx: Context, snips: Snippets, p: Piece, after: seq<Token>, a: Addresses)
    returns (c: Body)
    requires p.Site? && Accounted(ctx, p, after) && ImportFree(ctx, PieceTokens(p)) && a.at == Rest(p) + after
    ensures ScanBody(ctx, snips, BodyStart(a)) == Ok(c)
    ensures c.segs == p.segs && c.unread == after && c.imports == a.imports
    ensures p.close != [] ==> c.last == Some(p.close[0]) && p.close[0].text == "}"
    ensures Val(a.at) == "{" <==> p.open != []
    ensures p.open != [] ==> BodyStart(a) == Body(Some(a.at[0]), a.at[1..], [], a.imports)
    ensures BodyStart(a).unread == p.raw + (p.close + after)
  {
    hide ScanBody, AddressPart, KeysIn, SnippetName, Covers, LaterHeads, EndsAfter, Balanced, ImportFree, BodyStart;
    hide StartsOpen;
    var rest := p.close + after;
    ConcatAssociates(p.open, p.raw + p.close, after);
    ConcatAssociates(p.raw, p.close, after);
    BodyAfterOpen(p.open, p.raw + rest, a);
    InfixImportFree(ctx, p);
    var b := BodyStart(a);
    assert rest != [] ==> p.close != [] && rest[0] == p.close[0];
    BodyGoesOn(ctx, snips, b, p.segs, p.raw, rest);
    c := Body(LastOf(p.segs, b.last), rest, p.segs, a.imports);
    assert [] + p.segs == p.segs;
    BodyEnds(ctx, snips, c);
    if p.close != [] {
      assert p.close[0] in p.close && rest[1..] == after;
      c := Body(Some(p.close[0]), after, p.segs, a.imports);
    }
  }

  lemma {:induction false} ContentsIs(ctx: Context, snips: Snippets, a: Addresses, c: Body)
    requires ScanBody(ctx, snips, BodyStart(a)) == Ok(c)
    ensures Val(a.at) != "{" || (c.last.Some? && c.last.value.text == "}") ==>
              ScanContents(ctx, snips, a) == Ok(Block(a.keys, c.segs, c.last, c.unread, snips, c.imports))
    ensures ScanContents(ctx, snips, a).Ok? ==>
              ScanContents(ctx, snips, a) == Ok(Block(a.keys, c.segs, c.last, c.unread, snips, c.imports))
  {
    hide ScanBody;
  }

  /** An opened site at the end of the input is accepted by its last token. */
  lemma {:induction false} UnclosedTaken(ctx: Context, snips: Snippets, p: Piece, a: Addresses)
    requires p.Site? && p.open != [] && p.close == [] && Closed(ctx, p) && ImportFree(ctx, PieceTokens(p))
    requires a.at == Rest(p) + [] && Val(a.at) == "{" && a.at[1..] == p.raw
    requires ScanBody(ctx, snips, Body(Some(a.at[0]), a.at[1..], [], a.imports)).Ok?
    ensures ScanContents(ctx, snips, a).Ok?
  {
    hide ScanBody, ScanContents, ReadsAsBrace, OwnBrace, ImportFree;
    OpenImportFree(ctx, p);
    assert p.raw + p.close == p.raw && a.at == p.open + p.raw;
    UnclosedBlock(ctx, snips, a);
  }

  lemma {:induction false} SiteKept(ctx: Context, p: Piece, b: Block)
    requires p.Site? && b.keys == KeysIn(ctx, p.addr) && b.segs == p.segs
    ensures Kept(b) == BlockOf(ctx, p)
  {
    hide KeysIn, Group;
  }

  lemma {:induction false} SiteEnds(ctx: Context, p: Piece, after: seq<Token>)
    requires p.Site? && Accounted(ctx, p, after)
    ensures p.close == [] ==> after == []
  {
    hide AddressPart, KeysIn, SnippetName, Accounts, EndsAfter;
  }

  lemma {:induction false} SiteTaken(ctx: Context, snips: Snippets, p: Piece, after: seq<Token>, a: Addresses)
    requires p.Site? && Accounted(ctx, p, after) && Closed(ctx, p) && ImportFree(ctx, PieceTokens(p))
    requires a.at == Rest(p) + after && a.keys == KeysIn(ctx, p.addr)
    ensures Taken(ctx, snips, p, after, a.imports, ScanContents(ctx, snips, a))
  {
    hide ScanBody, ScanContents, KeysIn, Accounted, ImportFree, BodyStart, Closed, Rest, BlockOf, Kept, PieceTokens;
    var c := SiteBody(ctx, snips, p, after, a);
    ContentsIs(ctx, snips, a, c);
    SiteEnds(ctx, p, after);
    SiteKept(ctx, p, Block(a.keys, c.segs, c.last, c.unread, snips, c.imports));
    if p.open != [] && p.close == [] {
      assert p.raw + (p.close + after) == p.raw;
      UnclosedTaken(ctx, snips, p, a);
    }
  }

  lemma {:induction false} BodyAfterOpen(open: seq<Token>, body: seq<Token>, a: Addresses)
    requires a.at == open + body && |open| <= 1 && AllRead(open, "{") && (open == [] ==> !StartsOpen(body))
    ensures BodyStart(a).unread == body && BodyStart(a).segs == [] && BodyStart(a).imports == a.imports
    ensures Val(a.at) == "{" <==> open != []
    ensures open != [] ==> BodyStart(a) == Body(Some(a.at[0]), a.at[1..], [], a.imports)
  {
    if open == [] {
      assert a.at == body;
    } else {
      assert open[0] in open && a.at[0] == open[0] && a.at[1..] == body;
    }
  }

  lemma {:induction false} InfixImportFree(ctx: Context, p: Piece)
    requires p.Site? && ImportFree(ctx, PieceTokens(p))
    ensures ImportFree(ctx, p.raw)
  {
    hide Subst;
    assert forall t :: t in p.raw ==> t in PieceTokens(p);
  }

  lemma {:induction false} OpenImportFree(ctx: Context, p: Piece)
    requires p.Site? && ImportFree(ctx, PieceTokens(p))
    ensures ImportFree(ctx, p.open + p.raw)
  {
    hide Subst;
    assert forall t :: t in p.open + p.raw ==> t in PieceTokens(p);
  }

  lemma {:induction false} SnippetTaken(ctx: Context, snips: Snippets, p: Piece, after: seq<Token>, a: Addresses)
    requires p.Snippet? && Accounted(ctx, p, after) && p.name !in snips && a.at == Rest(p) + after
    ensures Taken(ctx, snips, p, after, a.imports, ScanStored(snips, a, p.name))
  {
    hide ScanSnippet, AddressPart, KeysIn, SnippetName, Closes, Group;
    SnippetRest(p, after);
    var rest := p.held + ([p.end] + after);
    assert a.at == [p.brace] + rest && a.at[0] == p.brace && a.at[1..] == rest;
    SnippetComplete(Stored(p.brace, rest, []), p.held, p.end, after);
  }

  /** A piece at the start of the tokens is read as such, whatever comes after it. */
  lemma {:induction false} PieceTaken(ctx: Context, snips: Snippets, prev: Option<Token>, p: Piece, after: seq<Token>,
                                      imports: nat)
    requires Accounted(ctx, p, after) && Closed(ctx, p) && ImportFree(ctx, PieceTokens(p))
    requires p.Snippet? ==> p.name !in snips
    ensures PieceTokens(p) != []
    ensures Taken(ctx, snips, p, after, imports, ScanOne(ctx, snips, prev, PieceTokens(p) + after, imports))
  {
    hide ScanAddresses, ScanContents, ScanStored, AddressPart, KeysIn, SnippetName, Closed, Group, ImportFree;
    PieceReads(ctx, p, after);
    var at, n := PieceTokens(p) + after, |p.addr|;
    var a0 := Addresses(prev, at, [], false, false, imports);
    AddressFirstPart(p, after);
    assert at[..n] == p.addr;
    AddressImportFree(ctx, p);
    AddressesGoOn(ctx, snips, a0, n);
    var a := AfterAddresses(ctx, a0, n);
    assert [] + KeysIn(ctx, p.addr) == KeysIn(ctx, p.addr);
    match p
    case Site(_, _, _, _, _) => SiteTaken(ctx, snips, p, after, a);
    case Snippet(_, _, _, _, _) => SnippetTaken(ctx, snips, p, after, a);
    case Bare(_) =>
  }

  lemma {:induction false} AddressImportFree(ctx: Context, p: Piece)
    requires ImportFree(ctx, PieceTokens(p))
    ensures ImportFree(ctx, p.addr)
  {
    hide Subst;
    assert forall t :: t in p.addr ==> t in PieceTokens(p);
  }

  // ---------------------------------------------------------------------------------------------
  // Whole inputs
  // ---------------------------------------------------------------------------------------------

  ghost predicate AllClosed(ctx: Context, pieces: seq<Piece>) {
    forall i :: 0 <= i < |pieces| ==> Closed(ctx, pieces[i])
  }

  /** Every piece is what it claims to be, with some tokens after all of them. */
  ghost predicate AccountedBefore(ctx: Context, snips: Snippets, pieces: seq<Piece>, after: seq<Token>)
    decreases |pieces|
  {
    pieces == [] ||
    (&& Accounted(ctx, pieces[0], Tokens(pieces[1..]) + after) && (pieces[0].Snippet? ==> pieces[0].name !in snips)
     && AccountedBefore(ctx, SnippetsAfter(pieces[0], snips), pieces[1..], after))
  }

  function SnippetsAll(pieces: seq<Piece>, snips: Snippets): Snippets
    decreases |pieces|
  {
    if pieces == [] then snips else SnippetsAll(pieces[1..], SnippetsAfter(pieces[0], snips))
  }

  /** Pieces at the start of the tokens are read as such, and the parse goes on after them. */
  lemma {:induction false} PiecesTaken(ctx: Context, snips: Snippets, last: Option<Token>, pieces: seq<Piece>,
                                       after: seq<Token>, blocks: seq<ServerBlock>, imports: nat)
    returns (last': Option<Token>)
    requires AccountedBefore(ctx, snips, pieces, after) && AllClosed(ctx, pieces) && ImportFree(ctx, Tokens(pieces))
    ensures ScanAll(ctx, snips, last, Tokens(pieces) + after, blocks, imports) ==
            ScanAll(ctx, SnippetsAll(pieces, snips), last', after, blocks + Blocks(ctx, pieces), imports)
    ensures pieces == [] ==> last' == last
    ensures pieces != [] && after != [] ==> last' == LastSeen(pieces[|pieces| - 1], last')
    decreases |pieces|
  {
    hide ScanAll, ScanOne, Accounted, Closed, BlockOf, PieceTokens, ImportFree, Group, LastSeen, Kept;
    last' := last;
    if pieces == [] {
      assert Tokens(pieces) + after == after && blocks + [] == blocks;
    } else {
      var p, rest := pieces[0], pieces[1..];
      var after' := Tokens(rest) + after;
      ConcatAssociates(PieceTokens(p), Tokens(rest), after);
      ConcatImportFree(ctx, PieceTokens(p), Tokens(rest));
      PieceTaken(ctx, snips, last, p, after', imports);
      var r := ScanOne(ctx, snips, last, PieceTokens(p) + after', imports);
      AllStep(ctx, snips, last, PieceTokens(p) + after', blocks, imports);
      last' := PiecesTaken(ctx, r.value.snips, r.value.last, rest, after, blocks + Kept(r.value), imports);
      ConcatAssociates(blocks, BlockOf(ctx, p), Blocks(ctx, rest));
      if rest == [] {
        assert after' == after;
      }
    }
  }

  lemma {:induction false} AllStep(ctx: Context, snips: Snippets, last: Option<Token>, unread: seq<Token>,
                                   blocks: seq<ServerBlock>, imports: nat)
    requires unread != []
    ensures var r := ScanOne(ctx, snips, last, unread, imports);
            r.Ok? ==> ScanAll(ctx, snips, last, unread, blocks, imports) ==
                      ScanAll(ctx, r.value.snips, r.value.last, r.value.unread, blocks + Kept(r.value), r.value.imports)
  {
    hide ScanOne, Group;
    assert blocks + [] == blocks;
  }

  lemma {:induction false} ConcatImportFree(ctx: Context, a: seq<Token>, b: seq<Token>)
    requires ImportFree(ctx, a + b)
    ensures ImportFree(ctx, a) && ImportFree(ctx, b)
  {
    hide Subst;
    assert forall t :: t in a || t in b ==> t in a + b;
  }

  lemma {:induction false} AccountedAlone(ctx: Context, snips: Snippets, pieces: seq<Piece>)
    ensures AccountedBefore(ctx, snips, pieces, []) <==> AllAccounted(ctx, snips, pieces)
    decreases |pieces|
  {
    hide Accounted;
    if pieces != [] {
      AccountedAlone(ctx, SnippetsAfter(pieces[0], snips), pieces[1..]);
      assert Tokens(pieces[1..]) + [] == Tokens(pieces[1..]);
    }
  }

  /** A site that was read has been closed, as far as the check goes. */
  lemma {:induction false} TurnCloses(ctx: Context, snips: Snippets, last: Option<Token>, at: seq<Token>, imports: nat,
                                      p: Piece, after: seq<Token>)
    requires at != [] && ImportFree(ctx, at) && at == PieceTokens(p) + after && Accounted(ctx, p, after)
    requires ScanOne(ctx, snips, last, at, imports).Ok?
    ensures Closed(ctx, p)
  {
    hide ScanAddresses, ScanContents, ScanBody, ScanStored, AddressPart, KeysIn, SnippetName, Group, ImportFree;
    hide Accounts;
    hide ReadsAsBrace, OwnBrace, EndsAfter;
    if p.Site? && p.open != [] && p.close == [] {
      var n, a0 := |p.addr|, Addresses(last, at, [], false, false, imports);
      AddressFirstPart(p, after);
      ConcatImportFree(ctx, PieceTokens(p), after);
      AddressImportFree(ctx, p);
      AddressesGoOn(ctx, snips, a0, n);
      var a := AfterAddresses(ctx, a0, n);
      assert [] + KeysIn(ctx, p.addr) == KeysIn(ctx, p.addr);
      var c := SiteBody(ctx, snips, p, after, a);
      assert after == [] && p.raw + (p.close + after) == p.raw;
      SuffixImportFree(ctx, a.at, at);
      UnclosedBlock(ctx, snips, a);
      NoOwnBrace(ctx, p, a.at);
    }
  }

  /** The tokens of an opened site without a closing brace have none of their own. */
  lemma {:induction false} NoOwnBrace(ctx: Context, p: Piece, at: seq<Token>)
    requires p.Site? && Accounts(ctx, p.segs, p.raw) && at != [] && at[1..] == p.raw
    ensures !OwnBrace(at)
  {
    hide Covers, LaterHeads, Balanced, Stripped;
    StrippedCloses(ctx, p.segs, p.raw);
  }

  lemma {:induction false} ParseCloses(ctx: Context, snips: Snippets, last: Option<Token>, unread: seq<Token>,
                                       blocks: seq<ServerBlock>, imports: nat, pieces: seq<Piece>)
    requires ImportFree(ctx, unread) && ScanAll(ctx, snips, last, unread, blocks, imports).outcome.Ok?
    requires Tokens(pieces) == unread && AllAccounted(ctx, snips, pieces)
    ensures AllClosed(ctx, pieces)
    decreases |pieces|
  {
    hide ScanAll, ScanOne, Accounted, Closed, ImportFree, Kept, BlockOf, PieceTokens;
    if pieces != [] {
      var p, rest := pieces[0], pieces[1..];
      PieceReads(ctx, p, Tokens(rest));
      AllFails(ctx, snips, last, unread, blocks, imports);
      TurnCloses(ctx, snips, last, unread, imports, p, Tokens(rest));
      ConcatImportFree(ctx, PieceTokens(p), Tokens(rest));
      PieceTaken(ctx, snips, last, p, Tokens(rest), imports);
      var r := ScanOne(ctx, snips, last, unread, imports);
      AllStep(ctx, snips, last, unread, blocks, imports);
      ParseCloses(ctx, r.value.snips, r.value.last, r.value.unread, blocks + Kept(r.value), r.value.imports, rest);
      forall i | 0 <= i < |pieces|
        ensures Closed(ctx, pieces[i])
      {
        assert i > 0 ==> pieces[i] == rest[i - 1];
      }
    }
  }

  lemma {:induction false} AllFails(ctx: Context, snips: Snippets, last: Option<Token>, unread: seq<Token>,
                                    blocks: seq<ServerBlock>, imports: nat)
    requires unread != [] && ScanAll(ctx, snips, last, unread, blocks, imports).outcome.Ok?
    ensures ScanOne(ctx, snips, last, unread, imports).Ok?
  {
    hide ScanOne, Group;
  }

  /**
   Acceptance, for every import-free input and in every context: the parse succeeds if and only if
   the input can be cut into pieces, with every opened site closed as far as the check goes; and then
   its blocks are those of the pieces.
   */
  lemma {:induction false} AcceptedIffCut(ctx: Context, tokens: seq<Token>, imports: nat)
    requires ImportFree(ctx, tokens)
    ensures Parse(ctx, tokens, imports).outcome == Ok(()) <==>
            exists pieces :: Tokens(pieces) == tokens && AllAccounted(ctx, map[], pieces) && AllClosed(ctx, pieces)
    ensures forall pieces :: Tokens(pieces) == tokens && AllAccounted(ctx, map[], pieces) && AllClosed(ctx, pieces) ==>
              Parse(ctx, tokens, imports) == Parsed(Blocks(ctx, pieces), Ok(()))
  {
    hide ScanAll, AllAccounted, AllClosed, Tokens, Blocks, ImportFree;
    if Parse(ctx, tokens, imports).outcome == Ok(()) {
      var pieces := ParseConserves(ctx, map[], None, tokens, [], imports);
      ParseCloses(ctx, map[], None, tokens, [], imports, pieces);
    }
    forall pieces | Tokens(pieces) == tokens && AllAccounted(ctx, map[], pieces) && AllClosed(ctx, pieces)
      ensures Parse(ctx, tokens, imports) == Parsed(Blocks(ctx, pieces), Ok(()))
    {
      CutAccepted(ctx, tokens, imports, pieces);
    }
  }

  lemma {:induction false} CutAccepted(ctx: Context, tokens: seq<Token>, imports: nat, pieces: seq<Piece>)
    requires ImportFree(ctx, tokens) && Tokens(pieces) == tokens && AllAccounted(ctx, map[], pieces) &&
             AllClosed(ctx, pieces)
    ensures Parse(ctx, tokens, imports) == Parsed(Blocks(ctx, pieces), Ok(()))
  {
    hide AllAccounted, AccountedBefore, AllClosed, Tokens, Blocks, ImportFree, ScanOne;
    AccountedAlone(ctx, map[], pieces);
    var last := PiecesTaken(ctx, map[], None, pieces, [], [], imports);
    assert tokens + [] == tokens && [] + Blocks(ctx, pieces) == Blocks(ctx, pieces);
  }
}
