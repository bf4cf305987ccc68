/**
 Loops over the blocks of directives (caddyfile/dispenser.go, NextBlock) on the tokens that a parse
 hands on (caddyfile/parse.go): they end, unless substitution makes an opening brace.
 */
module BlockLoops {
  import opened ClosingBrace
  import opened Conservation
  import opened Dispensing
  import opened Grammar
  import opened Lexer
  import opened Sequences
  import opened Wrappers

  // ---------------------------------------------------------------------------------------------
  // The tokens of a directive
  // ---------------------------------------------------------------------------------------------

  /** The tokens of the segments with a name, in order. */
  function NamedTokens(segs: seq<Segment>, name: string): seq<Token> {
    if segs == [] then []
    else
      var n := |segs| - 1;
      NamedTokens(segs[..n], name) + if segs[n].dir == name then segs[n].tokens else []
  }

  /** A block's tokens for a name are those of the directives with that name, one after the other. */
  lemma {:induction false} GroupIs(segs: seq<Segment>, name: string)
    ensures name in Group(segs) <==> exists i :: 0 <= i < |segs| && segs[i].dir == name
    ensures name in Group(segs) ==> Group(segs)[name] == NamedTokens(segs, name)
    ensures name !in Group(segs) ==> NamedTokens(segs, name) == []
  {
    if segs != [] {
      var n := |segs| - 1;
      GroupIs(segs[..n], name);
      assert forall i :: 0 <= i < n ==> segs[..n][i] == segs[i];
    }
  }

  // ---------------------------------------------------------------------------------------------
  // Closing braces follow opening ones
  // ---------------------------------------------------------------------------------------------

  /** Every opening brace has a closing brace after it. */
  ghost predicate Nested(ts: seq<Token>) {
    forall i :: 0 <= i < |ts| && ts[i].text == "{" ==> CloseFollows(ts, i)
  }

  lemma {:induction false} NestedConcat(a: seq<Token>, b: seq<Token>)
    requires Nested(a) && Nested(b)
    ensures Nested(a + b)
  {
    var all := a + b;
    forall i | 0 <= i < |all| && all[i].text == "{"
      ensures CloseFollows(all, i)
    {
      if i < |a| {
        assert CloseFollows(a, i);
        var k :| i < k && ClosesAt(a, k);
        assert ClosesAt(all, k);
      } else {
        assert CloseFollows(b, i - |a|);
        var k :| i - |a| < k && ClosesAt(b, k);
        assert ClosesAt(all, k + |a|);
      }
    }
  }

  /** Without closing braces the depth does not fall. */
  lemma {:induction false} DepthRises(ts: seq<Token>)
    requires forall i :: 0 <= i < |ts| ==> ts[i].text != "}"
    ensures Depth(ts) >= 0
  {
    if ts != [] {
      DepthRises(ts[1..]);
    }
  }

  /** In tokens that close all they open, an opening brace is closed later. */
  lemma {:induction false} ClosedLater(ts: seq<Token>, i: nat)
    requires Closes(ts, 0) && i < |ts| && ts[i].text == "{"
    ensures exists k :: i < k < |ts| && ts[k].text == "}"
  {
    var before, after := ts[..i], ts[i + 1..];
    assert ts == before + ([ts[i]] + after);
    DepthConcat(before, [ts[i]] + after);
    assert ([ts[i]] + after)[1..] == after;
    if forall k :: i < k < |ts| ==> ts[k].text != "}" {
      DepthRises(after);
    }
  }

  /** Substitution makes no opening brace of these tokens, and leaves closing braces alone. */
  ghost predicate BracesStand(ctx: Context, ts: seq<Token>) {
    Subst(ctx, "}") == "}" && forall t :: t in ts && Subst(ctx, t.text) == "{" ==> t.text == "{"
  }

  lemma {:induction false} SegmentNested(ctx: Context, seg: Segment, raw: seq<Token>)
    requires Collected(ctx, seg, raw) && HeadPlain(seg) && BracesStand(ctx, raw)
    ensures Nested(seg.tokens)
  {
    hide Closes, Inside, Subst;
    var ts, tail := seg.tokens, raw[1..];
    forall i | 0 <= i < |ts| && ts[i].text == "{"
      ensures CloseFollows(ts, i)
    {
      assert i > 0 && ts[i] == SubstToken(ctx, tail[i - 1]) && tail[i - 1] == raw[i] && raw[i] in raw;
      ClosedLater(tail, i - 1);
      var k :| i - 1 < k < |tail| && tail[k].text == "}";
      assert ts[k + 1] == SubstToken(ctx, tail[k]);
      assert ClosesAt(ts, k + 1);
    }
  }

  lemma {:induction false} NamedNested(ctx: Context, segs: seq<Segment>, ts: seq<Token>, name: string, k: nat)
    requires Covers(ctx, segs, ts) && BracesStand(ctx, ts) && k <= |segs|
    requires forall i :: 0 <= i < |segs| ==> HeadPlain(segs[i])
    ensures Nested(NamedTokens(segs[..k], name))
  {
    hide Covers, Collected, HeadPlain, Nested;
    if k == 0 {
      assert segs[..0] == [];
      NothingNested();
    } else {
      NamedNested(ctx, segs, ts, name, k - 1);
      var p, n := Offset(segs, k - 1), |segs[k - 1].tokens|;
      CoversAt(ctx, segs, ts, k - 1);
      StandSome(ctx, ts, p, n);
      SegmentNested(ctx, segs[k - 1], ts[p..p + n]);
      NothingNested();
      NestedConcat(NamedTokens(segs[..k - 1], name), if segs[k - 1].dir == name then segs[k - 1].tokens else []);
      assert segs[..k][..k - 1] == segs[..k - 1] && segs[..k][k - 1] == segs[k - 1];
    }
  }

  lemma {:induction false} NothingNested()
    ensures Nested([])
  {
  }

  lemma {:induction false} StandSome(ctx: Context, ts: seq<Token>, p: nat, n: nat)
    requires BracesStand(ctx, ts) && p + n <= |ts|
    ensures BracesStand(ctx, ts[p..p + n])
  {
    hide Subst;
    assert forall t :: t in ts[p..p + n] ==> t in ts;
  }

  lemma {:induction false} AllPlain(ctx: Context, segs: seq<Segment>, ts: seq<Token>)
    requires Covers(ctx, segs, ts) && LaterHeads(segs) && (ts != [] ==> ts[0].text != "{")
    ensures forall i :: 0 <= i < |segs| ==> HeadPlain(segs[i])
  {
    hide HeadPlain, Collected;
    if segs != [] {
      var n := |segs[0].tokens|;
      LaterPlain(segs);
      CollectedHead(ctx, segs[0], ts[..n]);
      CollectedBalanced(ctx, segs[0], ts[..n]);
      forall i | 0 <= i < |segs|
        ensures HeadPlain(segs[i])
      {
        assert i > 0 ==> segs[i] == segs[1..][i - 1];
      }
    }
  }

  /** On the tokens of a body's directive every loop over a block ends. */
  lemma {:induction false} BodyLoopsEnd(ctx: Context, segs: seq<Segment>, ts: seq<Token>, name: string, c: int)
    requires Covers(ctx, segs, ts) && LaterHeads(segs) && BracesStand(ctx, ts) && (ts != [] ==> ts[0].text != "{")
    requires name in Group(segs) && OpensBlock(Group(segs)[name], c)
    ensures Ends(Group(segs)[name], Standing(c, 0))
  {
    hide Covers, LaterHeads, BracesStand, HeadPlain, Group, Ends, CloseFollows;
    GroupIs(segs, name);
    AllPlain(ctx, segs, ts);
    NamedNested(ctx, segs, ts, name, |segs|);
    assert segs[..|segs|] == segs;
    assert CloseFollows(Group(segs)[name], c + 1);
    LoopEndsIff(Group(segs)[name], c);
  }

  // ---------------------------------------------------------------------------------------------
  // A whole parse
  // ---------------------------------------------------------------------------------------------

  /** A brace right after a brace: the second one would name a directive, where that is accepted. */
  ghost predicate DoubleOpen(ts: seq<Token>) {
    exists i :: 0 <= i < |ts| - 1 && ts[i].text == "{" && ts[i + 1].text == "{"
  }

  /** A block comes from a piece with its addresses and directives. */
  lemma {:induction false} BlockFrom(ctx: Context, snips: Snippets, pieces: seq<Piece>, b: ServerBlock)
    returns (p: Piece, before: seq<Token>, after: seq<Token>)
    requires AllAccounted(ctx, snips, pieces) && b in Blocks(ctx, pieces)
    ensures Accounted(ctx, p, after) && BlockOf(ctx, p) == [b] && Tokens(pieces) == before + PieceTokens(p) + after
    decreases |pieces|
  {
    hide Accounted, BlockOf, PieceTokens;
    BlockAlone(ctx, pieces[0]);
    if b in BlockOf(ctx, pieces[0]) {
      p, before, after := pieces[0], [], Tokens(pieces[1..]);
      assert [] + PieceTokens(p) == PieceTokens(p);
    } else {
      p, before, after := BlockFrom(ctx, SnippetsAfter(pieces[0], snips), pieces[1..], b);
      ConcatAssociates(PieceTokens(pieces[0]), before + PieceTokens(p), after);
      ConcatAssociates(PieceTokens(pieces[0]), before, PieceTokens(p));
      before := PieceTokens(pieces[0]) + before;
    }
  }

  lemma {:induction false} BlockAlone(ctx: Context, p: Piece)
    ensures forall b :: b in BlockOf(ctx, p) ==> BlockOf(ctx, p) == [b]
  {
  }

  /** A body that starts with a brace has a brace before it in the input. */
  lemma {:induction false} StartsWithBrace(ctx: Context, p: Piece, before: seq<Token>, after: seq<Token>)
    requires p.Site? && Accounted(ctx, p, after) && p.raw != [] && p.raw[0].text == "{"
    ensures DoubleOpen(before + PieceTokens(p) + after)
  {
    hide AddressPart, KeysIn, SnippetName, Accounts;
    var all, i := before + PieceTokens(p) + after, |before| + |p.addr|;
    assert (p.raw + p.close + after)[0] == p.raw[0];
    assert p.open != [] && p.open[0] in p.open;
    assert all[i] == p.open[0] && all[i + 1] == p.raw[0];
  }

  lemma {:induction false} NamedByBrace(ctx: Context, segs: seq<Segment>, ts: seq<Token>)
    requires Covers(ctx, segs, ts) && ts != [] && ts[0].text == "{"
    ensures ValidDirective(ctx, Subst(ctx, "{"))
  {
  }

  /**
   In an import-free parse that succeeds, on the tokens of every directive that is handed on, every
   loop over a block ends: provided that substitution makes no opening brace, and that no directive
   is named by one.
   */
  lemma {:induction false} LoopsEnd(ctx: Context, tokens: seq<Token>, imports: nat, b: ServerBlock, name: string,
                                    c: int)
    requires ImportFree(ctx, tokens) && Parse(ctx, tokens, imports).outcome == Ok(())
    requires BracesStand(ctx, tokens) && (DoubleOpen(tokens) ==> !ValidDirective(ctx, Subst(ctx, "{")))
    requires b in Parse(ctx, tokens, imports).blocks && name in b.tokens && OpensBlock(b.tokens[name], c)
    ensures Ends(b.tokens[name], Standing(c, 0))
  {
    hide ScanAll, AllAccounted, Tokens, Blocks, Accounted, BlockOf, PieceTokens, DoubleOpen, BracesStand, Ends,
         OpensBlock;
    var pieces := ParseConserves(ctx, map[], None, tokens, [], imports);
    assert [] + Blocks(ctx, pieces) == Blocks(ctx, pieces);
    var p, before, after := BlockFrom(ctx, map[], pieces, b);
    BlockHas(ctx, p, b, name);
    SiteAccounts(ctx, p, after);
    RawStands(ctx, p, before, after);
    if p.raw != [] && p.raw[0].text == "{" {
      StartsWithBrace(ctx, p, before, after);
      NamedByBrace(ctx, p.segs, p.raw);
    }
    BodyLoopsEnd(ctx, p.segs, p.raw, name, c);
  }

  lemma {:induction false} BlockHas(ctx: Context, p: Piece, b: ServerBlock, name: string)
    requires BlockOf(ctx, p) == [b] && name in b.tokens
    ensures p.Site? && b.tokens == Group(p.segs)
  {
    assert Group([]) == map[];
  }

  lemma {:induction false} SiteAccounts(ctx: Context, p: Piece, after: seq<Token>)
    requires p.Site? && Accounted(ctx, p, after)
    ensures Covers(ctx, p.segs, p.raw) && LaterHeads(p.segs)
  {
    hide AddressPart, KeysIn, SnippetName;
  }

  lemma {:induction false} RawStands(ctx: Context, p: Piece, before: seq<Token>, after: seq<Token>)
    requires p.Site? && BracesStand(ctx, before + PieceTokens(p) + after)
    ensures BracesStand(ctx, p.raw)
  {
    hide Subst;
    assert forall t :: t in p.raw ==> t in PieceTokens(p);
  }

  /** A block that is never closed: on these tokens the loop never ends. */
  lemma {:induction false} EndlessLoopExample()
    ensures !Ends([Token("", 1, "dir"), Token("", 1, "{"), Token("", 2, "x")], Standing(0, 0))
  {
    var tokens := [Token("", 1, "dir"), Token("", 1, "{"), Token("", 2, "x")];
    NoBreaks("dir");
    assert OpensBlock(tokens, 0);
    LoopEndsIff(tokens, 0);
    assert tokens[2].text[0] == 'x';
    assert !CloseFollows(tokens, 1);
  }

  /**
   The condition on substitution is needed. The parser counts braces before it substitutes: a
   reference to a variable whose value is an opening brace is handed on as a brace that nothing
   closes, and the loop over that block never ends.
   */
  lemma {:induction false} MadeBraceExample(files: string -> Option<seq<Token>>)
    ensures var ctx := Context(s => if s == "{$X}" then "{" else s, None, files);
            var tokens := [Token("", 1, "host"), Token("", 1, "{"), Token("", 2, "dir"), Token("", 2, "{$X}"),
                           Token("", 3, "}")];
            var handed := [Token("", 2, "dir"), Token("", 2, "{")];
            && Parse(ctx, tokens, 0) == Parsed([ServerBlock(["host"], map["dir" := handed])], Ok(()))
            && OpensBlock(handed, 0) && !Ends(handed, Standing(0, 0))
  {
    hide ScanAddresses, ScanBody, ScanDirective, Ends;
    var ctx := Context(s => if s == "{$X}" then "{" else s, None, files);
    var host, open, dir := Token("", 1, "host"), Token("", 1, "{"), Token("", 2, "dir");
    var ref, made, close := Token("", 2, "{$X}"), Token("", 2, "{"), Token("", 3, "}");
    var tokens, at, handed := [host, open, dir, ref, close], [open, dir, ref, close], [dir, made];
    assert tokens == [host] + at;
    MadeBody(ctx, open, dir, ref, made, close);
    assert "host"[0] == 'h' && "host"[3] == 't' && |"host"| == 4 && "{$X}"[0] == '{';
    NoBreaks("host");
    LoneAddress(ctx, map[], None, "host", 1, [dir, ref, close], 0);
    assert [host, open] + [dir, ref, close] == tokens && tokens[1..] == at;
    var a := Addresses(Some(host), at, ["host"], false, false, 0);
    assert at[1..] == [dir, ref, close];
    var block := Block(["host"], [Segment("dir", handed)], Some(close), [], map[], 0);
    assert ScanContents(ctx, map[], a) == Ok(block);
    assert SnippetName(["host"]) == None by {
      assert "host"[0] == 'h';
    }
    assert ScanOne(ctx, map[], None, tokens, 0) == Ok(block);
    GroupOne("dir", handed);
    var site := ServerBlock(["host"], Group(block.segs));
    assert ScanAll(ctx, map[], None, tokens, [], 0) == ScanAll(ctx, map[], Some(close), [], [] + [site], 0);
    NoBreaks("dir");
    LoopEndsIff(handed, 0);
  }

  lemma {:induction false} GroupOne(dir: string, ts: seq<Token>)
    ensures Group([Segment(dir, ts)]) == map[dir := ts]
  {
    assert [Segment(dir, ts)][..0] == [] && Group([]) == map[] && [] + ts == ts;
  }

  lemma {:induction false} MadeBody(ctx: Context, open: Token, dir: Token, ref: Token, made: Token, close: Token)
    requires ctx.subst == (s => if s == "{$X}" then "{" else s) && ctx.valid == None
    requires dir == Token("", 2, "dir") && ref == Token("", 2, "{$X}") && made == Token("", 2, "{")
    requires close == Token("", 3, "}")
    ensures ScanBody(ctx, map[], Body(Some(open), [dir, ref, close], [], 0)) ==
            Ok(Body(Some(close), [], [Segment("dir", [dir, made])], 0))
  {
    NoBreaks("dir");
    NoBreaks("{");
    assert dir.text[0] == 'd' && ref.text[1] == '$' && |ref.text| == 4;
    assert [dir, ref, close][1..] == [ref, close] && [ref, close][1..] == [close] && [close][1..] == [];
    assert Subst(ctx, "dir") == "dir" && SubstToken(ctx, ref) == made;
    var s0, s1 := Scan(dir, [ref, close], [dir], 0), Scan(made, [close], [dir, made], 0);
    assert ScanDirective(ctx, map[], s1, 0) == Ok(s1);
    assert [dir] + [made] == [dir, made];
    assert ScanDirective(ctx, map[], s0, 0) == Ok(s1);
    var b := Body(Some(made), [close], [Segment("dir", [dir, made])], 0);
    assert ScanBody(ctx, map[], b) == Ok(Body(Some(close), [], [Segment("dir", [dir, made])], 0));
    assert [] + [Segment("dir", [dir, made])] == [Segment("dir", [dir, made])];
  }
}
