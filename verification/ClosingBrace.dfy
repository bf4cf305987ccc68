/**
 The closing brace of a server block (caddyfile/parse.go, blockContents and closeCurlyBrace): when an
 opened block is accepted, on the tokens it is read from.
 */
module ClosingBrace {
  import opened Conservation
  import opened Grammar
  import opened Lexer
  import opened Wrappers

  /** The cursor is on the last token collected, or still where the body began. */
  ghost predicate CursorOnCollected(b: Body, start: Option<Token>) {
    if b.segs == [] then b.last == start
    else
      var ts := b.segs[|b.segs| - 1].tokens;
      ts != [] && b.last == Some(ts[|ts| - 1])
  }

  /** How many tokens the first k segments hold together: the position of the next one's tokens. */
  function Offset(segs: seq<Segment>, k: nat): nat
    requires k <= |segs|
  {
    if k == 0 then 0 else Offset(segs, k - 1) + |segs[k - 1].tokens|
  }

  function Count(segs: seq<Segment>): nat {
    Offset(segs, |segs|)
  }

  lemma {:induction false} OffsetFirst(segs: seq<Segment>, k: nat)
    requires 0 < k <= |segs|
    ensures Offset(segs, k) == |segs[0].tokens| + Offset(segs[1..], k - 1)
  {
    if k > 1 {
      OffsetFirst(segs, k - 1);
    }
  }

  lemma {:induction false} OffsetPrefix(segs: seq<Segment>, seg: Segment, k: nat)
    requires k <= |segs|
    ensures Offset(segs + [seg], k) == Offset(segs, k)
  {
    if k > 0 {
      OffsetPrefix(segs, seg, k - 1);
    }
  }

  lemma {:induction false} CoversCount(ctx: Context, segs: seq<Segment>, ts: seq<Token>)
    requires Covers(ctx, segs, ts)
    ensures Count(segs) == |ts|
    decreases |segs|
  {
    hide Collected;
    if segs != [] {
      CoversCount(ctx, segs[1..], ts[|segs[0].tokens|..]);
      OffsetFirst(segs, |segs|);
    }
  }

  lemma {:induction false} CursorAfterDirective(ctx: Context, s: Scan, r: Scan)
    requires DirectiveOutcome(ctx, s, 0, Ok(r)) && s.taken == [s.last]
    ensures r.taken != [] && r.last == r.taken[|r.taken| - 1]
    ensures |r.taken| + |r.unread| == 1 + |s.unread| && Suffix(r.unread, s.unread)
  {
  }

  lemma {:induction false} CountSnoc(segs: seq<Segment>, seg: Segment)
    ensures Count(segs + [seg]) == Count(segs) + |seg.tokens|
  {
    OffsetPrefix(segs, seg, |segs|);
  }

  lemma {:induction false} CursorOnLast(b: Body, segs: seq<Segment>, seg: Segment, start: Option<Token>)
    requires b.segs == segs + [seg] && seg.tokens != [] && b.last == Some(seg.tokens[|seg.tokens| - 1])
    ensures CursorOnCollected(b, start)
  {
  }

  /** Unless a closing brace of its own was read, the cursor stays on what was collected. */
  lemma {:induction false} BodyCursor(ctx: Context, snips: Snippets, b: Body, start: Option<Token>)
    requires ImportFree(ctx, b.unread) && CursorOnCollected(b, start)
    ensures var r := ScanBody(ctx, snips, b);
            r.Ok? ==> CursorOnCollected(r.value, start) || Count(r.value.segs) < Count(b.segs) + |b.unread|
    decreases |b.unread|
  {
    hide ScanBody, ScanDirective, Count, CursorOnCollected, ValidDirective, ImportFree;
    if b.unread == [] || b.unread[0].text == "}" {
      BodyEnds(ctx, snips, b);
    } else {
      BodyTurn(ctx, snips, b);
      var t := b.unread[0];
      var d := ScanDirective(ctx, snips, Scan(t, b.unread[1..], [t], b.imports), 0);
      if ValidDirective(ctx, Subst(ctx, t.text)) && d.Ok? {
        CursorStep(ctx, snips, b, d.value, start);
        var seg := Segment(Subst(ctx, t.text), d.value.taken);
        BodyCursor(ctx, snips, Body(Some(d.value.last), d.value.unread, b.segs + [seg], d.value.imports), start);
      }
    }
  }

  /** After a directive the cursor is on its last token, and it was taken from the unread ones. */
  lemma {:induction false} CursorStep(ctx: Context, snips: Snippets, b: Body, s: Scan, start: Option<Token>)
    requires ImportFree(ctx, b.unread) && b.unread != []
    requires ScanDirective(ctx, snips, Scan(b.unread[0], b.unread[1..], [b.unread[0]], b.imports), 0) == Ok(s)
    ensures var seg := Segment(Subst(ctx, b.unread[0].text), s.taken);
            var b' := Body(Some(s.last), s.unread, b.segs + [seg], s.imports);
            && CursorOnCollected(b', start) && ImportFree(ctx, s.unread) && |s.unread| < |b.unread|
            && Count(b'.segs) + |s.unread| == Count(b.segs) + |b.unread|
  {
    hide ScanDirective, DirectiveOutcome, Count, CursorOnCollected, ImportFree;
    var t := b.unread[0];
    var s0 := Scan(t, b.unread[1..], [t], b.imports);
    var seg := Segment(Subst(ctx, t.text), s.taken);
    SuffixOfTail(s0.unread, b.unread);
    SuffixImportFree(ctx, s0.unread, b.unread);
    DirectiveConserves(ctx, snips, s0, 0);
    CursorAfterDirective(ctx, s0, s);
    SuffixImportFree(ctx, s.unread, s0.unread);
    CountSnoc(b.segs, seg);
    CursorOnLast(Body(Some(s.last), s.unread, b.segs + [seg], s.imports), b.segs, seg, start);
  }

  /** Some tokens without a brace at their start. */
  function Stripped(ts: seq<Token>): seq<Token> {
    if ts != [] && ts[0].text == "{" then ts[1..] else ts
  }

  /**
   A block that opens with at[0] is closed by a brace of its own: going through the tokens after it,
   one brace more gets closed than opened. A brace right after the opening one names a directive, if
   it is accepted at all, and does not count.
   */
  ghost predicate OwnBrace(at: seq<Token>)
    requires at != []
  {
    exists k :: 0 <= k <= |Stripped(at[1..])| && Depth(Stripped(at[1..])[..k]) == -1
  }

  /** Unless a brace follows the opening one, that is: at some point all braces opened are closed. */
  lemma {:induction false} OwnBraceIsBalance(at: seq<Token>)
    requires at != [] && at[0].text == "{" && (|at| > 1 ==> at[1].text != "{")
    ensures OwnBrace(at) <==> exists k :: 1 <= k <= |at| && Depth(at[..k]) == 0
  {
    var body := at[1..];
    forall k | 1 <= k <= |at|
      ensures Depth(at[..k]) == 1 + Depth(body[..k - 1])
    {
      assert at[..k][1..] == body[..k - 1];
    }
    if OwnBrace(at) {
      var k :| 0 <= k <= |body| && Depth(body[..k]) == -1;
      assert Depth(at[..k + 1]) == 0;
    }
    if exists k :: 1 <= k <= |at| && Depth(at[..k]) == 0 {
      var k :| 1 <= k <= |at| && Depth(at[..k]) == 0;
      assert Stripped(body) == body && Depth(Stripped(body)[..k - 1]) == -1;
    }
  }

  lemma {:induction false} StrippedCloses(ctx: Context, segs: seq<Segment>, ts: seq<Token>)
    requires Covers(ctx, segs, ts) && LaterHeads(segs)
    ensures Closes(Stripped(ts), 0)
  {
    hide Closes, HeadPlain, Inside;
    if segs == [] {
      ClosesNothing();
    } else {
      var n := |segs[0].tokens|;
      CollectedBalanced(ctx, segs[0], ts[..n]);
      LaterPlain(segs);
      PlainHeadsBalanced(ctx, segs[1..], ts[n..]);
      var first := Stripped(ts[..n]);
      ClosesConcat(first, ts[n..]);
      assert Stripped(ts) == first + ts[n..];
    }
  }

  /** With a closing brace of its own after what its directives cover, a block has one in its tokens, and else not. */
  lemma {:induction false} OwnBraceIff(ctx: Context, b: Body, r: Body, raw: seq<Token>, at: seq<Token>)
    requires EndsBody(b, r, raw) && Covers(ctx, r.segs, raw) && LaterHeads(r.segs)
    requires at != [] && b.unread == at[1..]
    ensures OwnBrace(at) <==> |raw| < |b.unread| && b.unread[|raw|].text == "}"
  {
    hide Covers, LaterHeads;
    StrippedCloses(ctx, r.segs, raw);
    var inner, all := Stripped(raw), Stripped(at[1..]);
    if |raw| < |b.unread| && b.unread[|raw|].text == "}" {
      var close := b.unread[|raw|];
      assert b.unread == raw + [close] + r.unread;
      assert all[..|inner| + 1] == inner + [close];
      DepthConcat(inner, [close]);
      assert [close][1..] == [] && Depth([close]) == -1;
      assert Depth(all[..|inner| + 1]) == -1;
    } else {
      assert all == inner;
    }
  }

  // ---------------------------------------------------------------------------------------------
  // Which tokens of a body name directives
  // ---------------------------------------------------------------------------------------------

  /**
   The i-th token of a body names a directive: it is the first, or all braces before it are closed
   and it starts a new line after the token before it, as that one reads once substituted.
   */
  predicate Names(ctx: Context, ts: seq<Token>, i: nat)
    requires i < |ts|
    decreases i, 0
  {
    i == 0 || (Depth(Stripped(ts[..i])) == 0 && StartsAnother(Seen(ctx, ts, i - 1), ts[i]))
  }

  /** A token as it reads when the next one is looked at: names of directives are not substituted in place. */
  function Seen(ctx: Context, ts: seq<Token>, i: nat): Token
    requires i < |ts|
    decreases i, 1
  {
    if Names(ctx, ts, i) then ts[i] else SubstToken(ctx, ts[i])
  }

  /** Depth within a directive's tokens is the depth in the whole body, its name and a brace at the start aside. */
  lemma {:induction false} DepthInside(ts: seq<Token>, p: nat, j: nat)
    requires p < j <= |ts| && ts[p].text != "}" && (p > 0 ==> ts[p].text != "{") && Depth(Stripped(ts[..p])) == 0
    ensures Depth(Stripped(ts[..j])) == Depth(ts[p + 1..j])
  {
    var tail := ts[p + 1..j];
    if p == 0 {
      assert ts[..j] == [ts[0]] + tail;
      assert ts[..j][0] == ts[0] && ts[..j][1..] == tail;
    } else {
      assert ts[..j] == ts[..p] + ([ts[p]] + tail);
      assert Stripped(ts[..j]) == Stripped(ts[..p]) + ([ts[p]] + tail);
      DepthConcat(Stripped(ts[..p]), [ts[p]] + tail);
      assert ([ts[p]] + tail)[1..] == tail;
    }
  }

  /** After its name, no token of a directive names another. */
  lemma {:induction false} NamesInside(ctx: Context, ts: seq<Token>, p: nat, n: nat, seg: Segment, j: nat)
    requires p + n <= |ts| && Collected(ctx, seg, ts[p..p + n]) && Names(ctx, ts, p)
    requires (p > 0 ==> ts[p].text != "{") && Depth(Stripped(ts[..p])) == 0
    requires p < j < p + n
    ensures !Names(ctx, ts, j)
    decreases j
  {
    hide StartsAnother, SubstToken, Names, Stripped, Depth;
    if j > p + 1 {
      NamesInside(ctx, ts, p, n, seg, j - 1);
    }
    GoesOn(ctx, ts, p, n, seg, j);
    DepthInside(ts, p, j);
    SeenIs(ctx, ts, j - 1);
    if Names(ctx, ts, j) {
      NamesOnlyIf(ctx, ts, j);
    }
  }

  /** A token of a directive after its name goes on from the one before, as the scan sees it. */
  lemma {:induction false} GoesOn(ctx: Context, ts: seq<Token>, p: nat, n: nat, seg: Segment, j: nat)
    requires p + n <= |ts| && Collected(ctx, seg, ts[p..p + n]) && p < j < p + n
    ensures ts[p].text != "}"
    ensures var before := if j == p + 1 then ts[p] else SubstToken(ctx, ts[j - 1]);
            Depth(ts[p + 1..j]) > 0 || !StartsAnother(before, ts[j])
  {
    hide StartsAnother, Closes, SubstToken, SubstAll, Depth;
    var raw := ts[p..p + n];
    var tail, k := raw[1..], j - p - 1;
    assert tail[k] == ts[j] && tail[..k] == ts[p + 1..j] && raw[0] == ts[p];
    assert k > 0 ==> tail[k - 1] == ts[j - 1];
    assert Depth(tail[..k]) > 0 || !StartsAnother(Before(ctx, raw[0], tail, k), tail[k]);
  }

  lemma {:induction false} NamesOnlyIf(ctx: Context, ts: seq<Token>, i: nat)
    requires 0 < i < |ts| && Names(ctx, ts, i)
    ensures Depth(Stripped(ts[..i])) == 0 && StartsAnother(Seen(ctx, ts, i - 1), ts[i])
  {
  }

  /** The k-th segment was collected from its own tokens, and those before it cover the tokens before. */
  lemma {:induction false} CoversAt(ctx: Context, segs: seq<Segment>, ts: seq<Token>, k: nat)
    requires Covers(ctx, segs, ts) && k < |segs|
    ensures var p, n := Offset(segs, k), |segs[k].tokens|; p + n <= |ts| && Collected(ctx, segs[k], ts[p..p + n])
    ensures Covers(ctx, segs[..k], ts[..Offset(segs, k)])
    decreases |segs|
  {
    hide Collected, Offset;
    var n := |segs[0].tokens|;
    if k == 0 {
      OffsetNone(segs);
      assert segs[..0] == [] && ts[..0] == [] && ts[0..n] == ts[..n];
    } else {
      var p, q := Offset(segs, k), Offset(segs[1..], k - 1);
      CoversAt(ctx, segs[1..], ts[n..], k - 1);
      OffsetFirst(segs, k);
      Shifted(ts, n, q, |segs[k].tokens|);
      assert segs[1..][..k - 1] == segs[..k][1..];
      CoversCons(ctx, segs[..k], ts[..p], n);
    }
  }

  lemma {:induction false} OffsetNone(segs: seq<Segment>)
    ensures Offset(segs, 0) == 0
  {
  }

  lemma {:induction false} Shifted(ts: seq<Token>, n: nat, q: nat, m: nat)
    requires n + q + m <= |ts|
    ensures ts[n..][q..q + m] == ts[n + q..n + q + m]
    ensures ts[..n + q][..n] == ts[..n] && ts[..n + q][n..] == ts[n..][..q]
  {
  }

  lemma {:induction false} CoversCons(ctx: Context, segs: seq<Segment>, ts: seq<Token>, n: nat)
    requires segs != [] && n == |segs[0].tokens| <= |ts|
    requires Collected(ctx, segs[0], ts[..n]) && Covers(ctx, segs[1..], ts[n..])
    ensures Covers(ctx, segs, ts)
  {
    hide Collected;
  }

  /** The tokens that name directives are the first ones of the segments. */
  lemma {:induction false} NamesAreHeads(ctx: Context, segs: seq<Segment>, ts: seq<Token>, k: nat)
    requires Covers(ctx, segs, ts) && LaterHeads(segs) && k < |segs|
    ensures var p, n := Offset(segs, k), |segs[k].tokens|;
            && 0 < n && p + n <= |ts| && Names(ctx, ts, p) && forall j :: p < j < p + n ==> !Names(ctx, ts, j)
  {
    hide Names, Covers, Collected, StartsAnother, LaterHeads;
    var p, n := Offset(segs, k), |segs[k].tokens|;
    CoversAt(ctx, segs, ts, k);
    HeadHere(ctx, segs, ts, k);
    CollectedLength(ctx, segs[k], ts[p..p + n]);
    LaterPrefix(segs, k);
    StrippedCloses(ctx, segs[..k], ts[..p]);
    ClosesDepth(Stripped(ts[..p]));
    if k > 0 {
      NamesAreHeads(ctx, segs, ts, k - 1);
      NameAfter(ctx, segs, ts, k);
    } else {
      FirstNames(ctx, ts);
    }
    forall j | p < j < p + n
      ensures !Names(ctx, ts, j)
    {
      NamesInside(ctx, ts, p, n, segs[k], j);
    }
  }

  lemma {:induction false} FirstNames(ctx: Context, ts: seq<Token>)
    requires ts != []
    ensures Names(ctx, ts, 0)
  {
  }

  lemma {:induction false} ClosesDepth(ts: seq<Token>)
    requires Closes(ts, 0)
    ensures Depth(ts) == 0
  {
  }

  lemma {:induction false} LaterPrefix(segs: seq<Segment>, k: nat)
    requires LaterHeads(segs) && k <= |segs|
    ensures LaterHeads(segs[..k])
  {
    forall i | 0 < i < k
      ensures Follows(segs[..k][i - 1], segs[..k][i])
    {
      assert Follows(segs[i - 1], segs[i]);
    }
  }

  lemma {:induction false} CollectedLength(ctx: Context, seg: Segment, raw: seq<Token>)
    requires Collected(ctx, seg, raw)
    ensures |seg.tokens| == |raw| > 0
    ensures seg.tokens[|raw| - 1] == if |raw| == 1 then raw[0] else SubstToken(ctx, raw[|raw| - 1])
  {
  }

  /** A later directive's first token is plain, and follows the last one of the directive before. */
  lemma {:induction false} HeadHere(ctx: Context, segs: seq<Segment>, ts: seq<Token>, k: nat)
    requires LaterHeads(segs) && k < |segs|
    requires var p, n := Offset(segs, k), |segs[k].tokens|; p + n <= |ts| && Collected(ctx, segs[k], ts[p..p + n])
    ensures var p := Offset(segs, k); p < |ts| && (p > 0 ==> ts[p].text != "{")
    ensures k > 0 ==> Follows(segs[k - 1], segs[k]) && segs[k].tokens[0] == ts[Offset(segs, k)]
  {
    var p, n := Offset(segs, k), |segs[k].tokens|;
    CollectedHead(ctx, segs[k], ts[p..p + n]);
    assert ts[p..p + n][0] == ts[p];
    if k > 0 {
      assert Follows(segs[k - 1], segs[k]);
    } else {
      assert p == 0;
    }
  }

  lemma {:induction false} NameAfter(ctx: Context, segs: seq<Segment>, ts: seq<Token>, k: nat)
    requires Covers(ctx, segs, ts) && LaterHeads(segs) && 0 < k < |segs|
    requires var p, n := Offset(segs, k - 1), |segs[k - 1].tokens|;
             && 0 < n && p + n <= |ts| && Names(ctx, ts, p) && forall j :: p < j < p + n ==> !Names(ctx, ts, j)
    requires var p := Offset(segs, k); p <= |ts| && Depth(Stripped(ts[..p])) == 0
    ensures Offset(segs, k) < |ts| && Names(ctx, ts, Offset(segs, k))
  {
    hide Covers, Collected, StartsAnother, LaterHeads, SubstToken, Names;
    var p, q, n := Offset(segs, k), Offset(segs, k - 1), |segs[k - 1].tokens|;
    CoversAt(ctx, segs, ts, k);
    HeadHere(ctx, segs, ts, k);
    CoversAt(ctx, segs, ts, k - 1);
    CollectedLength(ctx, segs[k - 1], ts[q..q + n]);
    assert ts[q..q + n][n - 1] == ts[p - 1];
    SeenIs(ctx, ts, p - 1);
    NamesIf(ctx, ts, p);
  }

  lemma {:induction false} SeenIs(ctx: Context, ts: seq<Token>, i: nat)
    requires i < |ts|
    ensures Seen(ctx, ts, i) == if Names(ctx, ts, i) then ts[i] else SubstToken(ctx, ts[i])
  {
  }

  lemma {:induction false} NamesIf(ctx: Context, ts: seq<Token>, i: nat)
    requires 0 < i < |ts| && Depth(Stripped(ts[..i])) == 0 && StartsAnother(Seen(ctx, ts, i - 1), ts[i])
    ensures Names(ctx, ts, i)
  {
  }

  /** The last token collected is the last token there is, substituted unless it names a directive. */
  lemma {:induction false} LastCollected(ctx: Context, segs: seq<Segment>, ts: seq<Token>)
    requires Covers(ctx, segs, ts) && LaterHeads(segs) && segs != []
    ensures ts != [] && segs[|segs| - 1].tokens != []
    ensures var t, last := ts[|ts| - 1], segs[|segs| - 1].tokens[|segs[|segs| - 1].tokens| - 1];
            if Names(ctx, ts, |ts| - 1) then last == t && t.text != "}" else last == SubstToken(ctx, t)
  {
    hide Covers, Collected, LaterHeads, Names, SubstToken, Offset;
    var k := |segs| - 1;
    var p, n := Offset(segs, k), |segs[k].tokens|;
    CoversAt(ctx, segs, ts, k);
    CoversCount(ctx, segs, ts);
    CountLast(segs);
    NamesAreHeads(ctx, segs, ts, k);
    var raw := ts[p..p + n];
    assert raw[0] == ts[p] && raw[n - 1] == ts[|ts| - 1];
    CollectedLength(ctx, segs[k], raw);
    CollectedName(ctx, segs[k], raw);
  }

  lemma {:induction false} CountLast(segs: seq<Segment>)
    requires segs != []
    ensures Count(segs) == Offset(segs, |segs| - 1) + |segs[|segs| - 1].tokens|
  {
  }

  lemma {:induction false} CollectedName(ctx: Context, seg: Segment, raw: seq<Token>)
    requires Collected(ctx, seg, raw)
    ensures raw != [] && raw[0].text != "}"
  {
  }

  // ---------------------------------------------------------------------------------------------
  // When a block is accepted
  // ---------------------------------------------------------------------------------------------

  /** The last token of a body reads as a brace when the check looks at it: once substituted, unless it is a name. */
  predicate ReadsAsBrace(ctx: Context, body: seq<Token>) {
    body != [] && Subst(ctx, body[|body| - 1].text) == "}" && !Names(ctx, body, |body| - 1)
  }

  /**
   The check for a block's closing brace looks at the token under the cursor, whichever it is. In
   every context, an opened block whose directives are in order is accepted exactly when it has a
   closing brace of its own or the last token of the input, not being the name of a directive, reads
   as a brace once substituted: the brace of a nested block or any last argument.
   */
  lemma {:induction false} UnclosedBlock(ctx: Context, snips: Snippets, a: Addresses)
    requires ImportFree(ctx, a.at) && Val(a.at) == "{"
    ensures ScanContents(ctx, snips, a).Ok? <==>
            && ScanBody(ctx, snips, Body(Some(a.at[0]), a.at[1..], [], a.imports)).Ok?
            && (OwnBrace(a.at) || ReadsAsBrace(ctx, a.at[1..]))
  {
    hide ScanBody, Covers, OwnBrace, LaterHeads, ReadsAsBrace;
    var b := Body(Some(a.at[0]), a.at[1..], [], a.imports);
    var c := ScanBody(ctx, snips, b);
    SuffixImportFree(ctx, b.unread, a.at);
    CoversNothing(ctx);
    var raw := BodyConserves(ctx, snips, b, []);
    assert [] + raw == raw;
    if c.Ok? {
      OwnBraceIff(ctx, b, c.value, raw, a.at);
      if raw == b.unread {
        UnclosedCursor(ctx, snips, a, b, c.value);
      }
    }
  }

  lemma {:induction false} CountNone()
    ensures Count([]) == 0
  {
  }

  lemma {:induction false} CoversNone(ctx: Context, ts: seq<Token>)
    requires Covers(ctx, [], ts)
    ensures ts == []
  {
  }

  /** Without a brace of its own the cursor ends on the last token, which is then checked. */
  lemma {:induction false} UnclosedCursor(ctx: Context, snips: Snippets, a: Addresses, b: Body, c: Body)
    requires Val(a.at) == "{" && b == Body(Some(a.at[0]), a.at[1..], [], a.imports)
    requires ImportFree(ctx, b.unread) && ScanBody(ctx, snips, b) == Ok(c)
    requires Covers(ctx, c.segs, b.unread) && LaterHeads(c.segs)
    ensures c.last.Some? && (c.last.value.text == "}" <==> ReadsAsBrace(ctx, b.unread))
  {
    hide ScanBody, Covers, Count, LaterHeads, Names;
    CountNone();
    BodyCursor(ctx, snips, b, b.last);
    CoversCount(ctx, c.segs, b.unread);
    if c.segs == [] {
      CoversNone(ctx, b.unread);
    } else {
      LastCollected(ctx, c.segs, b.unread);
    }
  }

  /** A whole input that is accepted with a brace left open: the nested block's brace passes for the server block's. */
  lemma {:induction false} UnclosedBlockExample(files: string -> Option<seq<Token>>)
    ensures var ctx := Context(s => s, Some(["dir"]), files);
            var tokens := [Token("", 1, "host"), Token("", 1, "{"), Token("", 2, "dir"), Token("", 2, "{"),
                           Token("", 3, "}")];
            !OwnBrace(tokens[1..]) && Parse(ctx, tokens, 0).outcome == Ok(())
  {
    var ctx := Context(s => s, Some(["dir"]), files);
    var host, open := Token("", 1, "host"), Token("", 1, "{");
    var dir, inner, close := Token("", 2, "dir"), Token("", 2, "{"), Token("", 3, "}");
    var tokens := [host, open, dir, inner, close];
    var at := [open, dir, inner, close];
    assert tokens[1..] == at;
    ExampleBody(ctx, dir, inner, close, open);
    assert "host"[0] == 'h' && "host"[3] == 't' && |"host"| == 4;
    NoBreaks("host");
    LoneAddress(ctx, map[], None, "host", 1, [dir, inner, close], 0);
    assert [host, open] + [dir, inner, close] == tokens;
    ExampleOpen(open, dir, inner, close);
    var a := Addresses(Some(host), at, ["host"], false, false, 0);
    var b := Body(Some(open), at[1..], [], 0);
    assert at[1..] == [dir, inner, close];
    var block := Block(["host"], [Segment("dir", [dir, inner, close])], Some(close), [], map[], 0);
    assert ScanContents(ctx, map[], a) == Ok(block);
    assert "host"[0] == 'h';
    assert SnippetName(["host"]) == None;
    assert ScanOne(ctx, map[], None, tokens, 0) == Ok(block);
    assert ScanAll(ctx, map[], None, tokens, [], 0) ==
           ScanAll(ctx, map[], Some(close), [], [] + [ServerBlock(["host"], Group(block.segs))], 0);
  }

  lemma {:induction false} ExampleBody(ctx: Context, dir: Token, inner: Token, close: Token, open: Token)
    requires ctx.subst == (s => s) && ctx.valid == Some(["dir"])
    requires dir == Token("", 2, "dir") && inner == Token("", 2, "{") && close == Token("", 3, "}")
    ensures ScanBody(ctx, map[], Body(Some(open), [dir, inner, close], [], 0)) ==
            Ok(Body(Some(close), [], [Segment("dir", [dir, inner, close])], 0))
  {
    var s0 := Scan(dir, [inner, close], [dir], 0);
    var s1 := Scan(inner, [close], [dir, inner], 0);
    var s2 := Scan(close, [], [dir, inner, close], 0);
    assert [inner, close][1..] == [close] && [close][1..] == [];
    assert forall s :: Subst(ctx, s) == s;
    assert SubstToken(ctx, inner) == inner && SubstToken(ctx, close) == close;
    assert [dir] + [inner] == [dir, inner] && [dir, inner] + [close] == [dir, inner, close];
    assert ScanDirective(ctx, map[], s2, 0) == Ok(s2);
    assert ScanDirective(ctx, map[], s1, 1) == Ok(s2);
    assert ScanDirective(ctx, map[], s0, 0) == Ok(s2);
    assert [dir, inner, close][1..] == [inner, close];
    assert [] + [Segment("dir", [dir, inner, close])] == [Segment("dir", [dir, inner, close])];
  }

  lemma {:induction false} ExampleOpen(open: Token, dir: Token, inner: Token, close: Token)
    requires dir.text == "dir" && inner.text == "{" && close.text == "}"
    ensures !OwnBrace([open, dir, inner, close])
  {
    var body := [dir, inner, close];
    assert [open, dir, inner, close][1..] == body && dir.text[0] == 'd';
    assert Closes([], 0);
    assert [inner, close] == [inner] + [close] && [close] == [close] + [];
    ClosesCons(close, [], 1);
    ClosesCons(inner, [close], 0);
    ClosesCons(dir, [inner, close], 0);
    assert body == [dir] + [inner, close];
  }
}
