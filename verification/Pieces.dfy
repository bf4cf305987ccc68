/**
 What the pieces of an input say about its parse (caddyfile/parse.go, parseAll): there is only one way
 to cut an input into pieces, a site is kept exactly when it has an address, and the tokens of a
 directive are those of its lines.
 */
module Pieces {
  import opened ClosingBrace
  import opened Conservation
  import opened Dispensing
  import opened Grammar
  import opened Lexer
  import opened Sequences
  import opened Wrappers

  // ---------------------------------------------------------------------------------------------
  // Only one way to cut
  // ---------------------------------------------------------------------------------------------

  lemma {:induction false} OneAddressPart(ctx: Context, before: bool, at: seq<Token>, m: nat, n: nat)
    requires AddressPart(ctx, before, at, m) && AddressPart(ctx, before, at, n)
    ensures m == n
  {
    hide Announces, NewLine, Subst;
    NotShorter(ctx, before, at, m, n);
    NotShorter(ctx, before, at, n, m);
  }

  lemma {:induction false} NotShorter(ctx: Context, before: bool, at: seq<Token>, m: nat, n: nat)
    requires AddressPart(ctx, before, at, m) && AddressPart(ctx, before, at, n)
    ensures !(m < n)
  {
    hide Announces, NewLine, Subst;
  }

  /** Of two ways to cut the same tokens, the longer first part starts with the shorter one and what follows it. */
  lemma {:induction false} LongerPart(a: seq<Token>, t: Token, b: seq<Token>, c: seq<Token>, d: seq<Token>)
    requires a + ([t] + b) == c + d
    ensures |a| < |c| ==> a + [t] <= c
  {
    var all := a + ([t] + b);
    assert c == all[..|c|];
    assert a + [t] == all[..|a| + 1];
  }

  /** Closed tokens and one more closing brace do not start closed ones. */
  lemma {:induction false} TooManyCloses(held: seq<Token>, end: Token, longer: seq<Token>)
    ensures Closes(held, 0) && end.text == "}" && held + [end] <= longer ==> !Closes(longer, 0)
  {
    if Closes(held, 0) && end.text == "}" && held + [end] <= longer {
      assert longer[..|held| + 1] == held + [end];
      DepthConcat(held, [end]);
      assert [end][1..] == [] && Depth([end]) == -1;
      assert Depth(longer[..|held| + 1]) < 0;
    }
  }

  lemma {:induction false} StrippedStarts(raw: seq<Token>, t: Token, longer: seq<Token>)
    requires t.text != "{"
    ensures raw + [t] <= longer ==> Stripped(raw) + [t] <= Stripped(longer)
  {
    if raw + [t] <= longer {
      assert longer[..|raw| + 1] == raw + [t];
      assert longer[0] == (raw + [t])[0];
      assert Stripped(longer)[..|Stripped(raw)| + 1] == Stripped(raw) + [t];
    }
  }

  /** The covered part of a body cannot be shorter than another one: it ends at a brace that closes too much. */
  lemma {:induction false} BodyNotShorter(ctx: Context, segs: seq<Segment>, raw: seq<Token>, close: seq<Token>,
                                          after: seq<Token>, segs': seq<Segment>, raw': seq<Token>, rest': seq<Token>)
    requires raw + close + after == raw' + rest'
    requires Accounts(ctx, segs, raw) && Accounts(ctx, segs', raw')
    requires |close| <= 1 && AllRead(close, "}") && (close == [] ==> after == [])
    ensures |raw| >= |raw'|
  {
    hide Covers, LaterHeads, Balanced, Closes, Stripped;
    StrippedCloses(ctx, segs, raw);
    StrippedCloses(ctx, segs', raw');
    if close != [] {
      var t := close[0];
      assert raw + close + after == raw + ([t] + after);
      LongerPart(raw, t, after, raw', rest');
      StrippedStarts(raw, t, raw');
      TooManyCloses(Stripped(raw), t, Stripped(raw'));
    } else {
      assert raw + close + after == raw;
    }
  }

  /** Directives that cover the same tokens are the same. */
  lemma {:induction false} SameSegments(ctx: Context, segs: seq<Segment>, segs': seq<Segment>, ts: seq<Token>, k: nat)
    requires Covers(ctx, segs, ts) && LaterHeads(segs) && Covers(ctx, segs', ts) && LaterHeads(segs')
    requires k <= |segs| && k <= |segs'|
    ensures segs[..k] == segs'[..k]
  {
    hide Covers, LaterHeads, Collected, Offset;
    if k > 0 {
      SameSegments(ctx, segs, segs', ts, k - 1);
      OffsetSame(segs, segs', k - 1);
      CoversAt(ctx, segs, ts, k - 1);
      CoversAt(ctx, segs', ts, k - 1);
      LengthNotShorter(ctx, segs, segs', ts, k - 1);
      LengthNotShorter(ctx, segs', segs, ts, k - 1);
      var p, n := Offset(segs, k - 1), |segs[k - 1].tokens|;
      CollectedOnce(ctx, segs[k - 1], segs'[k - 1], ts[p..p + n]);
      assert segs[..k] == segs[..k - 1] + [segs[k - 1]];
      assert segs'[..k] == segs'[..k - 1] + [segs'[k - 1]];
    }
  }

  lemma {:induction false} OffsetSame(segs: seq<Segment>, segs': seq<Segment>, k: nat)
    requires k <= |segs| && k <= |segs'| && segs[..k] == segs'[..k]
    ensures Offset(segs, k) == Offset(segs', k)
  {
    if k > 0 {
      assert segs[..k][..k - 1] == segs[..k - 1] && segs'[..k][..k - 1] == segs'[..k - 1];
      assert segs[k - 1] == segs[..k][k - 1] && segs'[k - 1] == segs'[..k][k - 1];
      OffsetSame(segs, segs', k - 1);
    }
  }

  lemma {:induction false} CollectedOnce(ctx: Context, seg: Segment, seg': Segment, raw: seq<Token>)
    requires Collected(ctx, seg, raw) && Collected(ctx, seg', raw)
    ensures seg == seg'
  {
  }

  /** A directive ends where the next token names another, so another one from the same place is no longer. */
  lemma {:induction false} LengthNotShorter(ctx: Context, segs: seq<Segment>, segs': seq<Segment>, ts: seq<Token>,
                                            k: nat)
    requires Covers(ctx, segs, ts) && LaterHeads(segs) && Covers(ctx, segs', ts) && LaterHeads(segs')
    requires k < |segs| && k < |segs'| && Offset(segs, k) == Offset(segs', k)
    ensures |segs[k].tokens| >= |segs'[k].tokens|
  {
    hide Covers, LaterHeads, Collected, Names, Offset;
    var p, n := Offset(segs, k), |segs[k].tokens|;
    NamesAreHeads(ctx, segs', ts, k);
    NamesAreHeads(ctx, segs, ts, k);
    OffsetNext(segs, k);
    if k + 1 < |segs| {
      NamesAreHeads(ctx, segs, ts, k + 1);
    } else {
      CoversCount(ctx, segs, ts);
    }
  }

  lemma {:induction false} OffsetNext(segs: seq<Segment>, k: nat)
    requires k < |segs|
    ensures Offset(segs, k + 1) == Offset(segs, k) + |segs[k].tokens|
    ensures k + 1 == |segs| ==> Offset(segs, k + 1) == Count(segs)
  {
  }

  lemma {:induction false} AsMany(ctx: Context, segs: seq<Segment>, segs': seq<Segment>, ts: seq<Token>)
    requires Covers(ctx, segs, ts) && LaterHeads(segs) && Covers(ctx, segs', ts) && LaterHeads(segs')
    ensures |segs| >= |segs'|
  {
    hide Covers, LaterHeads, Collected, Offset;
    if |segs| < |segs'| {
      var k := |segs|;
      SameSegments(ctx, segs, segs', ts, k);
      OffsetSame(segs, segs', k);
      CoversCount(ctx, segs, ts);
      NamesAreHeads(ctx, segs', ts, k);
    }
  }

  lemma {:induction false} SameBodies(ctx: Context, segs: seq<Segment>, segs': seq<Segment>, ts: seq<Token>)
    requires Accounts(ctx, segs, ts) && Accounts(ctx, segs', ts)
    ensures segs == segs'
  {
    hide Covers, LaterHeads, Balanced;
    AsMany(ctx, segs, segs', ts);
    AsMany(ctx, segs', segs, ts);
    SameSegments(ctx, segs, segs', ts, |segs|);
    assert segs[..|segs|] == segs && segs'[..|segs|] == segs';
  }

  lemma {:induction false} HeldNotShorter(held: seq<Token>, end: Token, after: seq<Token>, held': seq<Token>,
                                          rest': seq<Token>)
    requires held + ([end] + after) == held' + rest' && Closes(held, 0) && Closes(held', 0) && end.text == "}"
    ensures |held| >= |held'|
  {
    hide Closes;
    LongerPart(held, end, after, held', rest');
    TooManyCloses(held, end, held');
  }

  /** Two pieces at the start of the same tokens are the same. */
  lemma {:induction false} SamePieces(ctx: Context, p: Piece, after: seq<Token>, q: Piece, after': seq<Token>)
    requires Accounted(ctx, p, after) && Accounted(ctx, q, after')
    requires PieceTokens(p) + after == PieceTokens(q) + after'
    ensures p == q && after == after'
  {
    hide AddressPart, KeysIn, SnippetName, Accounts, Closes, AllRead, StartsOpen;
    var at := PieceTokens(p) + after;
    OneAddressPart(ctx, false, at, |p.addr|, |q.addr|);
    AddressFirstPart(p, after);
    AddressFirstPart(q, after');
    assert p.addr == at[..|p.addr|] && q.addr == at[..|q.addr|];
    match p
    case Site(_, _, _, _, _) => SameSites(ctx, p, after, q, after');
    case Snippet(_, _, _, _, _) => SameSnippets(p, after, q, after');
    case Bare(_) =>
  }

  /** What follows the addresses of a piece. */
  function Rest(p: Piece): seq<Token> {
    match p
    case Site(_, open, raw, close, _) => open + (raw + close)
    case Snippet(_, brace, held, end, _) => [brace] + (held + [end])
    case Bare(_) => []
  }

  lemma {:induction false} AddressFirstPart(p: Piece, after: seq<Token>)
    ensures PieceTokens(p) + after == p.addr + (Rest(p) + after)
    ensures (PieceTokens(p) + after)[..|p.addr|] == p.addr && (PieceTokens(p) + after)[|p.addr|..] == Rest(p) + after
  {
    if p.Bare? {
      assert [] + after == after;
    } else {
      ConcatAssociates(p.addr, Rest(p), after);
    }
  }

  lemma {:induction false} SameSites(ctx: Context, p: Piece, after: seq<Token>, q: Piece, after': seq<Token>)
    requires p.Site? && q.Site? && p.addr == q.addr && Rest(p) + after == Rest(q) + after'
    requires Accounted(ctx, p, after) && Accounted(ctx, q, after')
    ensures p == q && after == after'
  {
    hide AddressPart, KeysIn, SnippetName, Accounts, PieceTokens;
    var body, body' := p.raw + p.close + after, q.raw + q.close + after';
    ConcatAssociates(p.open, p.raw + p.close, after);
    ConcatAssociates(q.open, q.raw + q.close, after');
    SameOpen(p.open, body, q.open, body');
    ConcatAssociates(p.raw, p.close, after);
    ConcatAssociates(q.raw, q.close, after');
    BodyNotShorter(ctx, p.segs, p.raw, p.close, after, q.segs, q.raw, q.close + after');
    BodyNotShorter(ctx, q.segs, q.raw, q.close, after', p.segs, p.raw, p.close + after);
    SameStart(p.raw, p.close + after, q.raw, q.close + after');
    SameBodies(ctx, p.segs, q.segs, p.raw);
    SameClose(p.close, after, q.close, after');
  }

  lemma {:induction false} SameStart(a: seq<Token>, b: seq<Token>, c: seq<Token>, d: seq<Token>)
    requires a + b == c + d && |a| == |c|
    ensures a == c && b == d
  {
    assert a == (a + b)[..|a|] && c == (c + d)[..|c|];
    assert b == (a + b)[|a|..] && d == (c + d)[|c|..];
  }

  lemma {:induction false} SameOpen(open: seq<Token>, body: seq<Token>, open': seq<Token>, body': seq<Token>)
    requires open + body == open' + body' && |open| <= 1 && |open'| <= 1 && AllRead(open, "{") && AllRead(open', "{")
    requires (open == [] ==> !StartsOpen(body)) && (open' == [] ==> !StartsOpen(body'))
    ensures open == open' && body == body'
  {
    var all := open + body;
    assert open != [] ==> all[0] == open[0] && open[0].text == "{";
    assert open' != [] ==> all[0] == open'[0] && open'[0].text == "{";
    assert open == [] ==> all == body;
    assert open' == [] ==> all == body';
    SameStart(open, body, open', body');
  }

  lemma {:induction false} SameClose(close: seq<Token>, after: seq<Token>, close': seq<Token>, after': seq<Token>)
    requires close + after == close' + after' && |close| <= 1 && |close'| <= 1
    requires (close == [] ==> after == []) && (close' == [] ==> after' == [])
    ensures close == close' && after == after'
  {
    assert close == [] ==> close + after == [];
    assert close' == [] ==> close' + after' == [];
    SameStart(close, after, close', after');
  }

  lemma {:induction false} SameSnippets(p: Piece, after: seq<Token>, q: Piece, after': seq<Token>)
    requires p.Snippet? && q.Snippet? && p.addr == q.addr && p.name == q.name && Rest(p) + after == Rest(q) + after'
    requires Closes(p.held, 0) && Closes(q.held, 0) && p.end.text == "}" && q.end.text == "}"
    ensures p == q && after == after'
  {
    hide Closes, Rest;
    var rest, rest' := [p.end] + after, [q.end] + after';
    SnippetRest(p, after);
    SnippetRest(q, after');
    SameFirst(p.brace, p.held + rest, q.brace, q.held + rest');
    HeldNotShorter(p.held, p.end, after, q.held, rest');
    HeldNotShorter(q.held, q.end, after', p.held, rest);
    SameStart(p.held, rest, q.held, rest');
    SameFirst(p.end, after, q.end, after');
  }

  lemma {:induction false} SnippetRest(p: Piece, after: seq<Token>)
    requires p.Snippet?
    ensures Rest(p) + after == [p.brace] + (p.held + ([p.end] + after))
  {
    ConcatAssociates([p.brace], p.held + [p.end], after);
    ConcatAssociates(p.held, [p.end], after);
  }

  lemma {:induction false} SameFirst(s: Token, a: seq<Token>, t: Token, b: seq<Token>)
    requires [s] + a == [t] + b
    ensures s == t && a == b
  {
    SameStart([s], a, [t], b);
    assert [s][0] == [t][0];
  }

  /** A piece takes something from the input. */
  lemma {:induction false} PieceReads(ctx: Context, p: Piece, after: seq<Token>)
    requires Accounted(ctx, p, after)
    ensures PieceTokens(p) != []
  {
    hide AddressPart, KeysIn, SnippetName, Accounts, Closes, StartsOpen;
  }

  /** There is only one way to cut an input into pieces. */
  lemma {:induction false} OneWayToCut(ctx: Context, snips: Snippets, ps: seq<Piece>, snips': Snippets, qs: seq<Piece>)
    requires AllAccounted(ctx, snips, ps) && AllAccounted(ctx, snips', qs) && Tokens(ps) == Tokens(qs)
    ensures ps == qs
    decreases |ps|
  {
    hide Accounted, PieceTokens;
    if ps != [] {
      PieceReads(ctx, ps[0], Tokens(ps[1..]));
    }
    if qs != [] {
      PieceReads(ctx, qs[0], Tokens(qs[1..]));
    }
    if ps != [] && qs != [] {
      SamePieces(ctx, ps[0], Tokens(ps[1..]), qs[0], Tokens(qs[1..]));
      OneWayToCut(ctx, SnippetsAfter(ps[0], snips), ps[1..], SnippetsAfter(qs[0], snips'), qs[1..]);
      assert ps == [ps[0]] + ps[1..] && qs == [qs[0]] + qs[1..];
    }
  }

  /**
   However an import-free input is cut into pieces, if the parse succeeds then its blocks are those
   of the pieces: the input determines them.
   */
  lemma {:induction false} ParseDetermined(ctx: Context, tokens: seq<Token>, imports: nat, pieces: seq<Piece>)
    requires ImportFree(ctx, tokens) && Parse(ctx, tokens, imports).outcome == Ok(())
    requires Tokens(pieces) == tokens && AllAccounted(ctx, map[], pieces)
    ensures Parse(ctx, tokens, imports).blocks == Blocks(ctx, pieces)
  {
    hide ScanAll, AllAccounted, Tokens, Blocks;
    var cut := ParseConserves(ctx, map[], None, tokens, [], imports);
    OneWayToCut(ctx, map[], cut, map[], pieces);
    assert [] + Blocks(ctx, cut) == Blocks(ctx, cut);
  }

  // ---------------------------------------------------------------------------------------------
  // Sites that are kept and sites that are dropped
  // ---------------------------------------------------------------------------------------------

  /** Some token reads as something once substituted. */
  ghost predicate HasAddress(ctx: Context, ts: seq<Token>) {
    exists t :: t in ts && Subst(ctx, t.text) != ""
  }

  lemma {:induction false} KeysInSome(ctx: Context, ts: seq<Token>)
    ensures KeysIn(ctx, ts) != [] <==> HasAddress(ctx, ts)
  {
    hide Subst;
    if ts != [] {
      KeysInSome(ctx, ts[1..]);
      assert ts == [ts[0]] + ts[1..];
      if Subst(ctx, ts[0].text) != "" {
        assert ts[0] in ts;
      }
      assert forall t :: t in ts[1..] ==> t in ts;
    }
  }

  /** How many blocks the pieces before the i-th make: the place of its own, if it has one. */
  function PlaceOf(ctx: Context, pieces: seq<Piece>, i: nat): nat
    requires i <= |pieces|
  {
    |Blocks(ctx, pieces[..i])|
  }

  /** The i-th piece is a site whose addresses and directives make a block of their own, at its place. */
  ghost predicate IsKept(ctx: Context, pieces: seq<Piece>, i: nat, blocks: seq<ServerBlock>)
    requires i < |pieces| && pieces[i].Site?
  {
    && PlaceOf(ctx, pieces, i) < |blocks| && PlaceOf(ctx, pieces, i + 1) == PlaceOf(ctx, pieces, i) + 1
    && blocks[PlaceOf(ctx, pieces, i)] == ServerBlock(KeysIn(ctx, pieces[i].addr), Group(pieces[i].segs))
  }

  lemma {:induction false} BlocksConcat(ctx: Context, a: seq<Piece>, b: seq<Piece>)
    ensures Blocks(ctx, a + b) == Blocks(ctx, a) + Blocks(ctx, b)
  {
    hide BlockOf;
    if a == [] {
      assert a + b == b;
    } else {
      BlocksConcat(ctx, a[1..], b);
      assert (a + b)[0] == a[0] && (a + b)[1..] == a[1..] + b;
      ConcatAssociates(BlockOf(ctx, a[0]), Blocks(ctx, a[1..]), Blocks(ctx, b));
    }
  }

  lemma {:induction false} BlocksAt(ctx: Context, pieces: seq<Piece>, i: nat)
    requires i < |pieces|
    ensures Blocks(ctx, pieces) == Blocks(ctx, pieces[..i]) + BlockOf(ctx, pieces[i]) + Blocks(ctx, pieces[i + 1..])
    ensures Blocks(ctx, pieces[..i + 1]) == Blocks(ctx, pieces[..i]) + BlockOf(ctx, pieces[i])
  {
    hide BlockOf, Blocks;
    BlocksOne(ctx, pieces[i]);
    BlocksConcat(ctx, pieces[..i], [pieces[i]]);
    assert pieces[..i + 1] == pieces[..i] + [pieces[i]];
    BlocksConcat(ctx, pieces[..i + 1], pieces[i + 1..]);
    assert pieces == pieces[..i + 1] + pieces[i + 1..];
  }

  lemma {:induction false} BlocksOne(ctx: Context, p: Piece)
    ensures Blocks(ctx, [p]) == BlockOf(ctx, p)
  {
    hide BlockOf;
    assert [p][1..] == [] && Blocks(ctx, []) == [];
    assert BlockOf(ctx, p) + [] == BlockOf(ctx, p);
  }

  /**
   In an import-free parse that succeeds a site is kept, with all its directives, if and only if one
   of its address tokens reads as something once substituted. A site without one is dropped in silence.
   */
  lemma {:induction false} KeptIffAddressed(ctx: Context, tokens: seq<Token>, imports: nat, pieces: seq<Piece>, i: nat)
    requires ImportFree(ctx, tokens) && Parse(ctx, tokens, imports).outcome == Ok(())
    requires Tokens(pieces) == tokens && AllAccounted(ctx, map[], pieces) && i < |pieces| && pieces[i].Site?
    ensures IsKept(ctx, pieces, i, Parse(ctx, tokens, imports).blocks) <==> HasAddress(ctx, pieces[i].addr)
  {
    hide ScanAll, AllAccounted, Tokens, Blocks, HasAddress, Group, KeysIn;
    ParseDetermined(ctx, tokens, imports, pieces);
    KeysInSome(ctx, pieces[i].addr);
    BlocksAt(ctx, pieces, i);
  }

  /** The sites and the addresses alone, which could make a block each. */
  function Sites(pieces: seq<Piece>): seq<Piece> {
    if pieces == [] then [] else (if pieces[0].Snippet? then [] else [pieces[0]]) + Sites(pieces[1..])
  }

  /** Every site has its block if and only if each of them has an address. */
  lemma {:induction false} NothingDroppedIff(ctx: Context, pieces: seq<Piece>)
    ensures |Blocks(ctx, pieces)| <= |Sites(pieces)|
    ensures |Blocks(ctx, pieces)| == |Sites(pieces)| <==> forall p :: p in Sites(pieces) ==> HasAddress(ctx, p.addr)
    decreases |pieces|
  {
    hide HasAddress, KeysIn, Group;
    if pieces != [] {
      NothingDroppedIff(ctx, pieces[1..]);
      KeysInSome(ctx, pieces[0].addr);
      var rest := Sites(pieces[1..]);
      if !pieces[0].Snippet? {
        assert Sites(pieces) == [pieces[0]] + rest && pieces[0] in Sites(pieces);
        assert forall p :: p in Sites(pieces) <==> p == pieces[0] || p in rest;
      } else {
        assert Sites(pieces) == rest;
      }
    }
  }

  /** A site whose only address is empty: the input parses, and its directive is in no block. */
  lemma {:induction false} DroppedSiteExample(files: string -> Option<seq<Token>>)
    ensures var ctx := Context(s => s, None, files);
            var tokens := [Token("", 1, ""), Token("", 1, "{"), Token("", 2, "dir"), Token("", 3, "}")];
            Parse(ctx, tokens, 0) == Parsed([], Ok(()))
  {
    var ctx := Context(s => s, None, files);
    var none, open, dir, close := Token("", 1, ""), Token("", 1, "{"), Token("", 2, "dir"), Token("", 3, "}");
    var tokens, at := [none, open, dir, close], [open, dir, close];
    assert tokens[1..] == at && at[1..] == [dir, close];
    var a0 := Addresses(None, tokens, [], false, false, 0);
    var a1 := Addresses(Some(none), at, [], false, false, 0);
    assert ScanAddresses(ctx, map[], a1) == Ok(a1);
    assert AddKey(a0, "") == a0;
    assert ScanAddresses(ctx, map[], a0) == Ok(a1);
    DroppedBody(ctx, open, dir, close);
    var block := Block([], [Segment("dir", [dir])], Some(close), [], map[], 0);
    assert ScanContents(ctx, map[], a1) == Ok(block);
    assert ScanOne(ctx, map[], None, tokens, 0) == Ok(block);
    assert ScanAll(ctx, map[], None, tokens, [], 0) == ScanAll(ctx, map[], Some(close), [], [], 0);
  }

  lemma {:induction false} DroppedBody(ctx: Context, open: Token, dir: Token, close: Token)
    requires ctx.subst == (s => s) && ctx.valid == None
    requires dir == Token("", 2, "dir") && close == Token("", 3, "}")
    ensures ScanBody(ctx, map[], Body(Some(open), [dir, close], [], 0)) ==
            Ok(Body(Some(close), [], [Segment("dir", [dir])], 0))
  {
    assert [dir, close][1..] == [close] && [close][1..] == [];
    assert Breaks("dir") == 0 by {
      NoBreaks("dir");
    }
    assert dir.text[0] == 'd';
    assert Subst(ctx, "dir") == "dir";
    var s := Scan(dir, [close], [dir], 0);
    assert NewLine(dir, close);
    assert ScanDirective(ctx, map[], s, 0) == Ok(s);
    var b := Body(Some(dir), [close], [Segment("dir", [dir])], 0);
    assert ScanBody(ctx, map[], b) == Ok(Body(Some(close), [], [Segment("dir", [dir])], 0));
    assert [] + [Segment("dir", [dir])] == [Segment("dir", [dir])];
  }
}
