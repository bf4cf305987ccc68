/**
 What the parser keeps: on token streams without imports it always comes to an end, and the
 directives it collects are, in source order, exactly the tokens of each block's body.
 */
module Conservation {
  import opened Dispensing
  import opened Grammar
  import opened Lexer
  import opened Sequences
  import opened Wrappers

  /** No token reads as an import directive, before or after substitution. */
  ghost predicate ImportFree(ctx: Context, ts: seq<Token>) {
    && Subst(ctx, "") != "import"
    && forall t :: t in ts ==> t.text != "import" && Subst(ctx, t.text) != "import"
  }

  // ---------------------------------------------------------------------------------------------
  // Brace balance
  // ---------------------------------------------------------------------------------------------

  /** One for an opening brace, minus one for a closing brace. */
  function BraceStep(t: Token): int {
    if t.text == "{" then 1 else if t.text == "}" then -1 else 0
  }

  /** Opening braces minus closing braces. */
  function Depth(ts: seq<Token>): int {
    if ts == [] then 0 else BraceStep(ts[0]) + Depth(ts[1..])
  }

  /** With n braces already open: all are closed at the end, and no prefix closes more than is open. */
  ghost predicate Closes(ts: seq<Token>, n: int) {
    && n + Depth(ts) == 0
    && forall k :: 0 <= k <= |ts| ==> n + Depth(ts[..k]) >= 0
  }

  lemma {:induction false} ClosesCons(t: Token, ts: seq<Token>, n: nat)
    requires Closes(ts, n + BraceStep(t))
    ensures Closes([t] + ts, n)
  {
    var all := [t] + ts;
    assert all[1..] == ts;
    forall k | 0 <= k <= |all|
      ensures n + Depth(all[..k]) >= 0
    {
      if k > 0 {
        assert all[..k][1..] == ts[..k - 1];
      }
    }
  }

  lemma {:induction false} DepthConcat(a: seq<Token>, b: seq<Token>)
    ensures Depth(a + b) == Depth(a) + Depth(b)
  {
    if a == [] {
      assert a + b == b;
    } else {
      DepthConcat(a[1..], b);
      assert (a + b)[1..] == a[1..] + b;
    }
  }

  lemma {:induction false} ClosesConcat(a: seq<Token>, b: seq<Token>)
    requires Closes(a, 0) && Closes(b, 0)
    ensures Closes(a + b, 0)
  {
    DepthConcat(a, b);
    forall k | 0 <= k <= |a + b|
      ensures Depth((a + b)[..k]) >= 0
    {
      if k <= |a| {
        assert (a + b)[..k] == a[..k];
      } else {
        assert (a + b)[..k] == a + b[..k - |a|];
        DepthConcat(a, b[..k - |a|]);
      }
    }
  }

  function SubstAll(ctx: Context, ts: seq<Token>): seq<Token> {
    seq(|ts|, i requires 0 <= i < |ts| => SubstToken(ctx, ts[i]))
  }

  // ---------------------------------------------------------------------------------------------
  // One directive
  // ---------------------------------------------------------------------------------------------

  /** The tokens read between two scans of the same stream. */
  function Read(from: seq<Token>, to: seq<Token>): seq<Token> {
    if |to| <= |from| then from[..|from| - |to|] else []
  }

  /** `to` is what is left of `from` after reading some of it. */
  ghost predicate Suffix(to: seq<Token>, from: seq<Token>) {
    |to| <= |from| && to == from[|from| - |to|..]
  }

  lemma {:induction false} SuffixOfTail(to: seq<Token>, from: seq<Token>)
    requires from != [] && Suffix(to, from[1..])
    ensures Suffix(to, from)
  {
  }

  lemma {:induction false} SuffixImportFree(ctx: Context, to: seq<Token>, from: seq<Token>)
    requires Suffix(to, from) && ImportFree(ctx, from)
    ensures ImportFree(ctx, to)
  {
    forall t | t in to
      ensures t in from
    {
    }
  }

  /** A turn of the directive scan, when no import is in sight. */
  lemma {:induction false} DirectiveTurn(ctx: Context, snips: Snippets, s: Scan, nesting: nat)
    requires ImportFree(ctx, s.unread)
    ensures ScanDirective(ctx, snips, s, nesting) ==
            if s.unread == [] then if nesting > 0 then Err(UnexpectedEof) else Ok(s)
            else
              var t := s.unread[0];
              var t' := SubstToken(ctx, t);
              if t.text != "{" && NewLine(s.last, t) && nesting == 0 then Ok(s)
              else if nesting + BraceStep(t) < 0 then Err(UnexpectedCloseBrace)
              else ScanDirective(ctx, snips, Scan(t', s.unread[1..], s.taken + [t'], s.imports), nesting + BraceStep(t))
  {
    if s.unread != [] {
      assert s.unread[0] in s.unread;
    }
  }

  /** What a directive scan may answer on a stream without imports. */
  ghost predicate DirectiveOutcome(ctx: Context, s: Scan, nesting: int, r: Result<Scan>) {
    && !r.OutOfImports?
    && (r.Ok? ==>
          var raw := Read(s.unread, r.value.unread);
          && s.unread == raw + r.value.unread
          && r.value.taken == s.taken + SubstAll(ctx, raw)
          && r.value.imports == s.imports
          && r.value.last == (if raw == [] then s.last else SubstToken(ctx, raw[|raw| - 1]))
          && Closes(raw, nesting) && Inside(ctx, s.last, raw, nesting)
          && (r.value.unread != [] ==> StartsAnother(r.value.last, r.value.unread[0])))
  }

  /** A token after which no directive goes on, if all its braces are closed: it is on a new line and opens none. */
  predicate StartsAnother(last: Token, t: Token) {
    t.text != "{" && NewLine(last, t)
  }

  /** The token before position j of a directive's scope, as the scan sees it. */
  function Before(ctx: Context, last: Token, raw: seq<Token>, j: nat): Token
    requires j <= |raw|
  {
    if j == 0 then last else SubstToken(ctx, raw[j - 1])
  }

  /** None of the tokens starts another directive: where all braces are closed, each goes on from the one before. */
  ghost predicate Inside(ctx: Context, last: Token, raw: seq<Token>, nesting: int) {
    forall j :: 0 <= j < |raw| ==> nesting + Depth(raw[..j]) > 0 || !StartsAnother(Before(ctx, last, raw, j), raw[j])
  }

  lemma {:induction false} InsideCons(ctx: Context, last: Token, t: Token, raw: seq<Token>, nesting: int)
    requires Inside(ctx, SubstToken(ctx, t), raw, nesting + BraceStep(t))
    requires nesting > 0 || !StartsAnother(last, t)
    ensures Inside(ctx, last, [t] + raw, nesting)
  {
    hide StartsAnother, BraceStep;
    var all := [t] + raw;
    forall j | 0 <= j < |all|
      ensures nesting + Depth(all[..j]) > 0 || !StartsAnother(Before(ctx, last, all, j), all[j])
    {
      if j > 0 {
        assert all[..j][1..] == raw[..j - 1] && all[..j][0] == t;
        assert Before(ctx, last, all, j) == Before(ctx, SubstToken(ctx, t), raw, j - 1);
      }
    }
  }

  lemma {:induction false} ReadFirst(from: seq<Token>, to: seq<Token>)
    requires from != [] && from[1..] == Read(from[1..], to) + to
    ensures Read(from, to) == [from[0]] + Read(from[1..], to) && Read(from, to)[1..] == Read(from[1..], to)
    ensures from == Read(from, to) + to && Suffix(to, from)
  {
  }

  lemma {:induction false} DirectiveConserves(ctx: Context, snips: Snippets, s: Scan, nesting: nat)
    requires ImportFree(ctx, s.unread)
    ensures DirectiveOutcome(ctx, s, nesting, ScanDirective(ctx, snips, s, nesting))
    decreases |s.unread|
  {
    hide ScanDirective;
    DirectiveTurn(ctx, snips, s, nesting);
    if s.unread == [] || (s.unread[0].text != "{" && NewLine(s.last, s.unread[0]) && nesting == 0) {
      TakeNone(ctx, s);
    } else if nesting + BraceStep(s.unread[0]) >= 0 {
      var t' := SubstToken(ctx, s.unread[0]);
      var s' := Scan(t', s.unread[1..], s.taken + [t'], s.imports);
      DirectiveConserves(ctx, snips, s', nesting + BraceStep(s.unread[0]));
      TakeOne(ctx, s, s', ScanDirective(ctx, snips, s', nesting + BraceStep(s.unread[0])), nesting);
    }
  }

  lemma {:induction false} TakeNone(ctx: Context, s: Scan)
    requires s.unread != [] ==> StartsAnother(s.last, s.unread[0])
    ensures DirectiveOutcome(ctx, s, 0, Ok(s))
  {
    assert Read(s.unread, s.unread) == [];
    assert [] + s.unread == s.unread;
    assert s.taken + SubstAll(ctx, []) == s.taken;
  }

  lemma {:induction false} TakeOne(ctx: Context, s: Scan, s': Scan, r: Result<Scan>, nesting: nat)
    requires s.unread != [] && nesting + BraceStep(s.unread[0]) >= 0
    requires nesting > 0 || !StartsAnother(s.last, s.unread[0])
    requires var t' := SubstToken(ctx, s.unread[0]); s' == Scan(t', s.unread[1..], s.taken + [t'], s.imports)
    requires DirectiveOutcome(ctx, s', nesting + BraceStep(s.unread[0]), r)
    ensures DirectiveOutcome(ctx, s, nesting, r)
  {
    hide Closes, SubstToken, Inside, StartsAnother;
    if r.Ok? {
      var t := s.unread[0];
      var raw' := Read(s'.unread, r.value.unread);
      var raw := Read(s.unread, r.value.unread);
      ReadFirst(s.unread, r.value.unread);
      ClosesCons(t, raw', nesting);
      InsideCons(ctx, s.last, t, raw', nesting);
      assert SubstAll(ctx, raw) == [SubstToken(ctx, t)] + SubstAll(ctx, raw');
      ConcatAssociates(s.taken, [SubstToken(ctx, t)], SubstAll(ctx, raw'));
    }
  }

  // ---------------------------------------------------------------------------------------------
  // A block's body
  // ---------------------------------------------------------------------------------------------

  /**
   A segment was collected from raw: the name substituted, the first token as read, the rest
   substituted. After its name every brace is closed, no prefix closes more than it opened, and no
   token starts another directive.
   */
  ghost predicate Collected(ctx: Context, seg: Segment, raw: seq<Token>) {
    && raw != [] && raw[0].text != "}"
    && seg.dir == Subst(ctx, raw[0].text) && ValidDirective(ctx, seg.dir)
    && seg.tokens == [raw[0]] + SubstAll(ctx, raw[1..])
    && Closes(raw[1..], 0) && Inside(ctx, raw[0], raw[1..], 0)
  }

  /** The segments, in source order, are collected from ts with nothing left over. */
  ghost predicate Covers(ctx: Context, segs: seq<Segment>, ts: seq<Token>)
    decreases |segs|
  {
    if segs == [] then ts == []
    else
      var n := |segs[0].tokens|;
      n <= |ts| && Collected(ctx, segs[0], ts[..n]) && Covers(ctx, segs[1..], ts[n..])
  }

  /** Each segment's tokens are balanced, its name included. */
  ghost predicate Balanced(segs: seq<Segment>, ts: seq<Token>)
    decreases |segs|
  {
    segs == [] ||
    var n := |segs[0].tokens|;
    n <= |ts| && Closes(ts[..n], 0) && Balanced(segs[1..], ts[n..])
  }

  /** Every directive but the first starts on a new line after the one before, and is not named by an opening brace. */
  ghost predicate LaterHeads(segs: seq<Segment>) {
    forall i :: 0 < i < |segs| ==> Follows(segs[i - 1], segs[i])
  }

  ghost predicate Follows(before: Segment, seg: Segment) {
    before.tokens != [] && HeadPlain(seg) && StartsAnother(before.tokens[|before.tokens| - 1], seg.tokens[0])
  }

  ghost predicate HeadPlain(seg: Segment) {
    seg.tokens != [] && seg.tokens[0].text != "{"
  }

  /**
   The segments account for the tokens of a body: all of them, in order, and balanced unless it
   starts with a brace.
   */
  ghost predicate Accounts(ctx: Context, segs: seq<Segment>, ts: seq<Token>) {
    && Covers(ctx, segs, ts) && LaterHeads(segs)
    && (Balanced(segs, ts) <==> ts == [] || ts[0].text != "{")
  }

  lemma {:induction false} CoversNothing(ctx: Context)
    ensures Covers(ctx, [], []) && LaterHeads([])
  {
  }

  /** A directive's tokens are balanced exactly when its name is not an opening brace. */
  lemma {:induction false} CollectedBalanced(ctx: Context, seg: Segment, raw: seq<Token>)
    requires Collected(ctx, seg, raw)
    ensures Closes(raw, 0) <==> raw[0].text != "{"
    ensures HeadPlain(seg) <==> raw[0].text != "{"
    ensures |seg.tokens| == |raw|
  {
    assert raw == [raw[0]] + raw[1..];
    if raw[0].text != "{" {
      ClosesCons(raw[0], raw[1..], 0);
    }
  }

  lemma {:induction false} PlainHeadsBalanced(ctx: Context, segs: seq<Segment>, ts: seq<Token>)
    requires Covers(ctx, segs, ts) && forall i :: 0 <= i < |segs| ==> HeadPlain(segs[i])
    ensures Balanced(segs, ts) && Closes(ts, 0)
    decreases |segs|
  {
    hide Collected, HeadPlain, Closes;
    if segs == [] {
      ClosesNothing();
    } else {
      var n := |segs[0].tokens|;
      CollectedBalanced(ctx, segs[0], ts[..n]);
      PlainHeadsBalanced(ctx, segs[1..], ts[n..]);
      ClosesConcat(ts[..n], ts[n..]);
      assert ts == ts[..n] + ts[n..];
    }
  }

  /**
   A body that its directives cover is balanced directive by directive exactly when it does not
   start with a brace.
   */
  lemma {:induction false} CoversAccounts(ctx: Context, segs: seq<Segment>, ts: seq<Token>)
    requires Covers(ctx, segs, ts) && LaterHeads(segs)
    ensures Accounts(ctx, segs, ts)
  {
    hide Collected, HeadPlain, Closes;
    if segs != [] {
      var n := |segs[0].tokens|;
      CollectedBalanced(ctx, segs[0], ts[..n]);
      LaterPlain(segs);
      PlainHeadsBalanced(ctx, segs[1..], ts[n..]);
      CollectedHead(ctx, segs[0], ts[..n]);
    }
  }

  lemma {:induction false} LaterPlain(segs: seq<Segment>)
    requires LaterHeads(segs) && segs != []
    ensures forall i :: 0 <= i < |segs[1..]| ==> HeadPlain(segs[1..][i])
  {
    forall i | 0 <= i < |segs[1..]|
      ensures HeadPlain(segs[1..][i])
    {
      assert Follows(segs[i], segs[i + 1]);
    }
  }

  lemma {:induction false} CollectedHead(ctx: Context, seg: Segment, raw: seq<Token>)
    requires Collected(ctx, seg, raw)
    ensures raw != [] && seg.tokens != [] && seg.tokens[0] == raw[0]
  {
  }

  lemma {:induction false} CoversAppend(ctx: Context, segs: seq<Segment>, ts: seq<Token>, seg: Segment, raw: seq<Token>)
    requires Covers(ctx, segs, ts) && Collected(ctx, seg, raw)
    ensures Covers(ctx, segs + [seg], ts + raw)
    decreases |segs|
  {
    hide Collected;
    if segs == [] {
      CoversOne(ctx, seg, raw);
      assert segs + [seg] == [seg] && ts + raw == raw;
    } else {
      var n := |segs[0].tokens|;
      CoversAppend(ctx, segs[1..], ts[n..], seg, raw);
      AppendedRest(segs, seg, ts, raw, n);
    }
  }

  lemma {:induction false} CoversOne(ctx: Context, seg: Segment, raw: seq<Token>)
    requires Collected(ctx, seg, raw)
    ensures Covers(ctx, [seg], raw)
  {
    CollectedBalanced(ctx, seg, raw);
    assert raw[..|raw|] == raw && raw[|raw|..] == [] && [seg][1..] == [];
  }

  lemma {:induction false} AppendedRest(segs: seq<Segment>, seg: Segment, ts: seq<Token>, raw: seq<Token>, n: nat)
    requires segs != [] && n <= |ts|
    ensures (segs + [seg])[0] == segs[0] && (segs + [seg])[1..] == segs[1..] + [seg]
    ensures (ts + raw)[..n] == ts[..n] && (ts + raw)[n..] == ts[n..] + raw
  {
  }

  /** A token that comes after all the directives: on a new line, if there are any. */
  ghost predicate EndsAfter(segs: seq<Segment>, t: Token) {
    segs == [] ||
    (segs[|segs| - 1].tokens != [] &&
     StartsAnother(segs[|segs| - 1].tokens[|segs[|segs| - 1].tokens| - 1], t))
  }

  /** How a scan of a body ends: on a closing brace of its own, after its directives, or with the input. */
  ghost predicate EndsBody(b: Body, r: Body, raw: seq<Token>) {
    if |raw| < |b.unread| && b.unread[|raw|].text == "}" then
      && b.unread[..|raw|] == raw && r.unread == b.unread[|raw| + 1..] && r.last == Some(b.unread[|raw|])
      && EndsAfter(r.segs, b.unread[|raw|])
    else
      raw == b.unread && r.unread == []
  }

  /** The segment that one call of the directive scan adds, and what it was collected from. */
  lemma {:induction false} OneDirective(ctx: Context, snips: Snippets, b: Body, s: Scan)
    requires ImportFree(ctx, b.unread)
    requires b.unread != [] && b.unread[0].text != "}" && ValidDirective(ctx, Subst(ctx, b.unread[0].text))
    requires ScanDirective(ctx, snips, Scan(b.unread[0], b.unread[1..], [b.unread[0]], b.imports), 0) == Ok(s)
    ensures s.imports == b.imports && ImportFree(ctx, s.unread) && |s.unread| < |b.unread|
    ensures b.unread == Read(b.unread, s.unread) + s.unread
    ensures Collected(ctx, Segment(Subst(ctx, b.unread[0].text), s.taken), Read(b.unread, s.unread))
    ensures s.taken != [] && s.last == s.taken[|s.taken| - 1]
    ensures s.unread != [] ==> StartsAnother(s.last, s.unread[0])
  {
    hide ScanDirective, StartsAnother, Inside, Closes;
    var t := b.unread[0];
    var s0 := Scan(t, b.unread[1..], [t], b.imports);
    DirectiveConserves(ctx, snips, s0, 0);
    ReadFirst(b.unread, s.unread);
    SuffixImportFree(ctx, s.unread, b.unread);
  }

  /** A turn of the body scan that reads a directive. */
  lemma {:induction false} BodyTurn(ctx: Context, snips: Snippets, b: Body)
    requires ImportFree(ctx, b.unread) && b.unread != [] && b.unread[0].text != "}"
    ensures var t := b.unread[0];
            var dir := Subst(ctx, t.text);
            var d := ScanDirective(ctx, snips, Scan(t, b.unread[1..], [t], b.imports), 0);
            && !d.OutOfImports?
            && ScanBody(ctx, snips, b) ==
               if !ValidDirective(ctx, dir) then Err(UnknownDirective)
               else if d.Err? then Err(d.error)
               else ScanBody(ctx, snips, Body(Some(d.value.last), d.value.unread,
                                              b.segs + [Segment(dir, d.value.taken)], d.value.imports))
  {
    assert b.unread[0] in b.unread;
    DirectiveConserves(ctx, snips, Scan(b.unread[0], b.unread[1..], [b.unread[0]], b.imports), 0);
  }

  ghost predicate BodyOutcome(ctx: Context, b: Body, r: Result<Body>, done: seq<Token>, raw: seq<Token>) {
    && !r.OutOfImports?
    && (r.Ok? ==>
          && r.value.imports == b.imports
          && EndsBody(b, r.value, raw) && Covers(ctx, r.value.segs, done + raw) && LaterHeads(r.value.segs))
  }

  /** The next token starts a directive after the last one collected. */
  ghost predicate NextFollows(b: Body) {
    && b.segs != [] && b.unread != [] && b.segs[|b.segs| - 1].tokens != []
    && var ts := b.segs[|b.segs| - 1].tokens;
    StartsAnother(ts[|ts| - 1], b.unread[0])
  }

  lemma {:induction false} LaterAppend(b: Body, seg: Segment)
    requires LaterHeads(b.segs) && b.unread != [] && seg.tokens != [] && seg.tokens[0] == b.unread[0]
    requires b.segs != [] ==> NextFollows(b)
    ensures LaterHeads(b.segs + [seg])
  {
    var segs := b.segs + [seg];
    forall i | 0 < i < |segs|
      ensures Follows(segs[i - 1], segs[i])
    {
      if i < |b.segs| {
        assert Follows(b.segs[i - 1], b.segs[i]);
      }
    }
  }

  lemma {:induction false} BodyConserves(ctx: Context, snips: Snippets, b: Body, done: seq<Token>)
    returns (raw: seq<Token>)
    requires ImportFree(ctx, b.unread) && Covers(ctx, b.segs, done) && LaterHeads(b.segs)
    requires b.segs != [] && b.unread != [] ==> NextFollows(b)
    ensures BodyOutcome(ctx, b, ScanBody(ctx, snips, b), done, raw)
    decreases |b.unread|
  {
    hide ScanDirective, Collected, Covers, LaterHeads, StartsAnother;
    raw := [];
    if b.unread == [] || b.unread[0].text == "}" {
      assert done + [] == done;
    } else {
      var t := b.unread[0];
      var dir := Subst(ctx, t.text);
      var d := ScanDirective(ctx, snips, Scan(t, b.unread[1..], [t], b.imports), 0);
      BodyTurn(ctx, snips, b);
      if ValidDirective(ctx, dir) && d.Ok? {
        var s := d.value;
        OneDirective(ctx, snips, b, s);
        var first := Read(b.unread, s.unread);
        var seg := Segment(dir, s.taken);
        CoversAppend(ctx, b.segs, done, seg, first);
        CollectedHead(ctx, seg, first);
        LaterAppend(b, seg);
        var b' := Body(Some(s.last), s.unread, b.segs + [seg], s.imports);
        var rest := BodyConserves(ctx, snips, b', done + first);
        raw := first + rest;
        BodyPrepend(ctx, b, b', ScanBody(ctx, snips, b'), done, first, rest);
      }
    }
  }

  lemma {:induction false} BodyPrepend(ctx: Context, b: Body, b': Body, r: Result<Body>, done: seq<Token>,
                                       first: seq<Token>, rest: seq<Token>)
    requires b.unread == first + b'.unread && b'.imports == b.imports
    requires BodyOutcome(ctx, b', r, done + first, rest)
    ensures BodyOutcome(ctx, b, r, done, first + rest)
  {
    assert done + first + rest == done + (first + rest);
    if r.Ok? {
      Prepend(b, b', r.value, first, rest);
    }
  }

  lemma {:induction false} Prepend(b: Body, b': Body, r: Body, first: seq<Token>, rest: seq<Token>)
    requires b.unread == first + b'.unread && EndsBody(b', r, rest)
    ensures EndsBody(b, r, first + rest)
  {
    var raw := first + rest;
    if |rest| < |b'.unread| && b'.unread[|rest|].text == "}" {
      assert b.unread[|raw|] == b'.unread[|rest|];
      assert b.unread[..|raw|] == raw;
      assert b.unread[|raw| + 1..] == b'.unread[|rest| + 1..];
    }
  }

  // ---------------------------------------------------------------------------------------------
  // A server block
  // ---------------------------------------------------------------------------------------------

  lemma {:induction false} AddressesTurn(ctx: Context, snips: Snippets, a: Addresses)
    requires ImportFree(ctx, a.at)
    ensures var tkn := Subst(ctx, Val(a.at));
            var b := AddKey(a, tkn);
            ScanAddresses(ctx, snips, a) ==
            if tkn == "{" then if a.expecting then Err(ExpectedAddress) else Ok(a)
            else if |a.at| < 2 then if b.expecting then Err(UnexpectedEof) else Ok(b.(eof := true))
            else
              var c := b.(prev := Some(a.at[0]), at := a.at[1..]);
              if !c.expecting && NewLine(a.at[0], a.at[1]) then Ok(c) else ScanAddresses(ctx, snips, c)
  {
    assert a.at != [] ==> a.at[0] in a.at;
  }

  /** The address a token stands for, once substituted: none if it is empty, and without a comma at its end. */
  function KeyIn(ctx: Context, t: Token): seq<string> {
    var tkn := Subst(ctx, t.text);
    if tkn == "" then [] else [if tkn[|tkn| - 1] == ',' then tkn[..|tkn| - 1] else tkn]
  }

  function KeysIn(ctx: Context, ts: seq<Token>): seq<string> {
    if ts == [] then [] else KeyIn(ctx, ts[0]) + KeysIn(ctx, ts[1..])
  }

  /** Whether another address is announced after some tokens: the last address among them has a comma. */
  predicate Announces(ctx: Context, before: bool, ts: seq<Token>)
    decreases |ts|
  {
    if ts == [] then before
    else
      var tkn := Subst(ctx, ts[0].text);
      Announces(ctx, if tkn == "" then before else tkn[|tkn| - 1] == ',', ts[1..])
  }

  /**
   The first n tokens are the addresses: none of them reads as a brace, each but the first continues
   its line or was announced by a comma, and what follows was not announced and is a brace, or
   starts a line, or is nothing.
   */
  ghost predicate AddressPart(ctx: Context, before: bool, at: seq<Token>, n: nat) {
    && n <= |at|
    && (forall i :: 0 <= i < n ==> Subst(ctx, at[i].text) != "{")
    && (forall i :: 0 < i < n ==> Announces(ctx, before, at[..i]) || !NewLine(at[i - 1], at[i]))
    && !Announces(ctx, before, at[..n])
    && (n < |at| ==> Subst(ctx, at[n].text) == "{" || (n > 0 && NewLine(at[n - 1], at[n])))
  }

  lemma {:induction false} AddressFirst(ctx: Context, before: bool, at: seq<Token>, n: nat)
    requires at != [] && Subst(ctx, at[0].text) != "{"
    requires AddressPart(ctx, Announces(ctx, before, at[..1]), at[1..], n)
    requires n > 0 ==> Announces(ctx, before, at[..1]) || !NewLine(at[0], at[1])
    requires n == 0 && |at| > 1 ==> Subst(ctx, at[1].text) == "{" || NewLine(at[0], at[1])
    ensures AddressPart(ctx, before, at, n + 1)
  {
    hide NewLine, Subst;
    var rest := at[1..];
    var next := Announces(ctx, before, at[..1]);
    forall i | 0 < i <= n + 1
      ensures Announces(ctx, before, at[..i]) == Announces(ctx, next, rest[..i - 1])
    {
      AnnouncesFirst(ctx, before, at, i);
    }
    forall i | 0 < i < n + 1
      ensures Announces(ctx, before, at[..i]) || !NewLine(at[i - 1], at[i])
    {
      if i > 1 {
        assert rest[i - 2] == at[i - 1] && rest[i - 1] == at[i];
        assert Announces(ctx, next, rest[..i - 1]) || !NewLine(rest[i - 2], rest[i - 1]);
      }
    }
    forall i | 0 <= i < n + 1
      ensures Subst(ctx, at[i].text) != "{"
    {
      if i > 0 {
        assert rest[i - 1] == at[i];
      }
    }
    if n + 1 < |at| {
      assert rest[n] == at[n + 1] && (n > 0 ==> rest[n - 1] == at[n]);
    }
  }

  lemma {:induction false} AnnouncesFirst(ctx: Context, before: bool, at: seq<Token>, i: nat)
    requires 0 < i <= |at|
    ensures Announces(ctx, before, at[..i]) == Announces(ctx, Announces(ctx, before, at[..1]), at[1..][..i - 1])
  {
    hide Subst;
    assert at[..1][1..] == [] && at[..i][1..] == at[1..][..i - 1] && at[..i][0] == at[0];
  }

  lemma {:induction false} KeysFirst(ctx: Context, at: seq<Token>, n: nat)
    requires 0 < n <= |at|
    ensures KeysIn(ctx, at[..n]) == KeyIn(ctx, at[0]) + KeysIn(ctx, at[1..][..n - 1])
  {
    hide KeyIn;
    assert at[..n][1..] == at[1..][..n - 1] && at[..n][0] == at[0];
  }

  /** What taking one address does, in the same terms. */
  lemma {:induction false} AddKeyIs(ctx: Context, a: Addresses)
    requires a.at != []
    ensures AddKey(a, Subst(ctx, a.at[0].text)) ==
            a.(keys := a.keys + KeyIn(ctx, a.at[0]), expecting := Announces(ctx, a.expecting, a.at[..1]))
  {
    assert a.at[..1][1..] == [];
    assert a.keys + [] == a.keys;
  }

  /** How far a scan of addresses has come: over all the tokens, or up to the first that is no address. */
  function AddressCount(a: Addresses, r: Addresses): int {
    if r.eof then |a.at| else |a.at| - |r.at|
  }

  /** What a scan of addresses answers on a stream without imports. */
  ghost predicate AddressOutcome(ctx: Context, a: Addresses, r: Result<Addresses>) {
    && !r.OutOfImports?
    && (r.Ok? ==>
          var n := AddressCount(a, r.value);
          && n >= 0 && AddressPart(ctx, a.expecting, a.at, n) && r.value.imports == a.imports
          && r.value.keys == a.keys + KeysIn(ctx, a.at[..n])
          && (!r.value.eof ==> n < |a.at| && r.value.at == a.at[n..]))
  }

  /** Without imports the addresses are read token by token, each of them once. */
  lemma {:induction false} AddressesConserve(ctx: Context, snips: Snippets, a: Addresses)
    requires ImportFree(ctx, a.at) && a.at != [] && !a.eof
    ensures AddressOutcome(ctx, a, ScanAddresses(ctx, snips, a))
    decreases |a.at|
  {
    hide ScanAddresses, AddKey, KeyIn, KeysIn, Announces, NewLine, AddressPart, Subst;
    AddressesTurn(ctx, snips, a);
    AddKeyIs(ctx, a);
    NoKeys(ctx, a.expecting);
    if Subst(ctx, a.at[0].text) == "{" {
      if !a.expecting {
        AddressNone(ctx, a.at);
        assert a.keys + [] == a.keys && a.at[0..] == a.at && a.at[..0] == [];
      }
    } else {
      var c := AddKey(a, Subst(ctx, a.at[0].text)).(prev := Some(a.at[0]), at := a.at[1..]);
      KeysFirst(ctx, a.at, 1);
      if |a.at| == 1 || (!c.expecting && NewLine(a.at[0], a.at[1])) {
        if !c.expecting {
          AddressLast(ctx, a.expecting, a.at);
          assert a.keys + (KeyIn(ctx, a.at[0]) + []) == a.keys + KeyIn(ctx, a.at[0]);
          assert a.at[1..][..0] == [] && (|a.at| == 1 ==> a.at[..1] == a.at);
        }
      } else {
        SuffixImportFree(ctx, c.at, a.at);
        AddressesConserve(ctx, snips, c);
        AddressStep(ctx, a, c, ScanAddresses(ctx, snips, c));
      }
    }
  }

  lemma {:induction false} NoKeys(ctx: Context, before: bool)
    ensures KeysIn(ctx, []) == [] && Announces(ctx, before, []) == before
  {
  }

  lemma {:induction false} AddressNone(ctx: Context, at: seq<Token>)
    requires at != [] && Subst(ctx, at[0].text) == "{"
    ensures AddressPart(ctx, false, at, 0)
  {
  }

  lemma {:induction false} AddressLast(ctx: Context, before: bool, at: seq<Token>)
    requires at != [] && Subst(ctx, at[0].text) != "{" && !Announces(ctx, before, at[..1])
    requires |at| > 1 ==> NewLine(at[0], at[1])
    ensures AddressPart(ctx, before, at, 1)
  {
    hide Announces, NewLine, Subst;
  }

  /** One more address in front of those that follow. */
  lemma {:induction false} AddressStep(ctx: Context, a: Addresses, c: Addresses, r: Result<Addresses>)
    requires a.at != [] && Subst(ctx, a.at[0].text) != "{" && |a.at| > 1
    requires c.at == a.at[1..] && c.keys == a.keys + KeyIn(ctx, a.at[0]) && c.imports == a.imports
    requires c.expecting == Announces(ctx, a.expecting, a.at[..1])
    requires c.expecting || !NewLine(a.at[0], a.at[1])
    requires AddressOutcome(ctx, c, r)
    ensures AddressOutcome(ctx, a, r)
  {
    hide KeyIn, KeysIn, Announces, NewLine, Subst, AddressPart;
    if r.Ok? {
      var n := AddressCount(c, r.value);
      AddressNext(ctx, c.expecting, c.at, n);
      AddressFirst(ctx, a.expecting, a.at, n);
      KeysFirst(ctx, a.at, n + 1);
      ConcatAssociates(a.keys, KeyIn(ctx, a.at[0]), KeysIn(ctx, c.at[..n]));
      if !r.value.eof {
        assert c.at[n..] == a.at[n + 1..];
      }
    }
  }

  /** Addresses of which there are none end at a brace, unannounced. */
  lemma {:induction false} AddressNext(ctx: Context, before: bool, at: seq<Token>, n: nat)
    requires AddressPart(ctx, before, at, n) && at != []
    ensures n == 0 ==> Subst(ctx, at[0].text) == "{"
  {
  }

  /** An address alone on a line with an opening brace. */
  lemma {:induction false} LoneAddress(ctx: Context, snips: Snippets, prev: Option<Token>, key: string,
                                       line: nat, rest: seq<Token>, imports: nat)
    requires key != "" && key != "import" && key != "{" && key[|key| - 1] != ',' && Breaks(key) == 0
    requires Subst(ctx, key) == key && Subst(ctx, "{") == "{"
    ensures var at := [Token("", line, key), Token("", line, "{")] + rest;
            ScanAddresses(ctx, snips, Addresses(prev, at, [], false, false, imports)) ==
            Ok(Addresses(Some(at[0]), at[1..], [key], false, false, imports))
  {
    var at := [Token("", line, key), Token("", line, "{")] + rest;
    var a := Addresses(prev, at, [], false, false, imports);
    var b := Addresses(Some(at[0]), at[1..], [key], false, false, imports);
    assert AddKey(a, key) == a.(keys := [key]);
    assert ScanAddresses(ctx, snips, b) == Ok(b);
  }

  /** What the scan of a snippet answers, in terms of the tokens that follow its opening brace. */
  ghost predicate SnippetOutcome(s: Stored, count: nat, r: Result<Stored>) {
    match r
    case Ok(end) =>
      var n := |s.unread| - |end.unread| - 1;
      && n >= 0 && s.unread[n].text == "}" && Closes(s.unread[..n], count - 1)
      && end == Stored(s.unread[n], s.unread[n + 1..], s.tokens + s.unread[..n])
    case Err(_) => forall k :: 0 <= k <= |s.unread| ==> count + Depth(s.unread[..k]) >= 1
    case OutOfImports => false
  }

  /**
   A snippet holds exactly the tokens up to the brace that matches its opening one, as they stand;
   storing it fails only when no later token closes that brace.
   */
  lemma {:induction false} SnippetConserves(s: Stored, count: nat)
    requires count >= 1
    ensures SnippetOutcome(s, count, ScanSnippet(s, count))
    decreases |s.unread|
  {
    hide Closes;
    if s.unread == [] {
      NeverCloses(s.unread, count);
    } else {
      var t := s.unread[0];
      assert s.unread == [t] + s.unread[1..];
      if t.text == "}" && count == 1 {
        ClosesNothing();
        assert s.unread[..0] == [] && s.tokens + [] == s.tokens;
      } else {
        var count' := count + BraceStep(t);
        var s' := Stored(t, s.unread[1..], s.tokens + [t]);
        assert ScanSnippet(s, count) == ScanSnippet(s', count');
        SnippetConserves(s', count');
        SnippetOneMore(s, s', count, ScanSnippet(s', count'));
      }
    }
  }

  lemma {:induction false} ClosesNothing()
    ensures Closes([], 0)
  {
  }

  lemma {:induction false} NeverCloses(ts: seq<Token>, count: nat)
    requires ts == [] && count >= 1
    ensures forall k :: 0 <= k <= |ts| ==> count + Depth(ts[..k]) >= 1
  {
  }

  lemma {:induction false} SnippetOneMore(s: Stored, s': Stored, count: nat, r: Result<Stored>)
    requires s.unread != [] && count >= 1 && count + BraceStep(s.unread[0]) >= 1
    requires s'.unread == s.unread[1..] && s'.tokens == s.tokens + [s.unread[0]]
    requires SnippetOutcome(s', count + BraceStep(s.unread[0]), r)
    ensures SnippetOutcome(s, count, r)
  {
    hide Closes;
    var t := s.unread[0];
    match r
    case Ok(end) =>
      var n := |s.unread| - |end.unread| - 1;
      ClosesCons(t, s'.unread[..n - 1], count - 1);
      assert s.unread[..n] == [t] + s'.unread[..n - 1];
      assert s.tokens + [t] + s'.unread[..n - 1] == s.tokens + s.unread[..n];
    case Err(_) =>
      forall k | 0 <= k <= |s.unread|
        ensures count + Depth(s.unread[..k]) >= 1
      {
        if k > 0 {
          assert s.unread[..k][1..] == s'.unread[..k - 1];
        }
      }
  }

  // ---------------------------------------------------------------------------------------------
  // One turn of the parser
  // ---------------------------------------------------------------------------------------------

  /** One turn's share of the input: a site with its addresses and its body, a snippet, or addresses alone. */
  datatype Piece =
    | Site(addr: seq<Token>, open: seq<Token>, raw: seq<Token>, close: seq<Token>, segs: seq<Segment>)
    | Snippet(addr: seq<Token>, brace: Token, held: seq<Token>, end: Token, name: string)
    | Bare(addr: seq<Token>)

  function PieceTokens(p: Piece): seq<Token> {
    match p
    case Site(addr, open, raw, close, _) => addr + (open + (raw + close))
    case Snippet(addr, brace, held, end, _) => addr + ([brace] + (held + [end]))
    case Bare(addr) => addr
  }

  ghost predicate AllRead(ts: seq<Token>, text: string) {
    forall t :: t in ts ==> t.text == text
  }

  /** Whether some tokens start with an opening brace. */
  predicate StartsOpen(ts: seq<Token>) {
    ts != [] && ts[0].text == "{"
  }

  /**
   A piece is what it claims to be, with some tokens after it. Its addresses are the address part of
   the input. A site's body follows, after a brace if there is one; the directives account for all
   of it up to a closing brace or the end. A snippet holds what is between its braces.
   */
  ghost predicate Accounted(ctx: Context, p: Piece, after: seq<Token>) {
    && AddressPart(ctx, false, PieceTokens(p) + after, |p.addr|)
    && match p
       case Site(addr, open, raw, close, segs) =>
         && |addr| < |PieceTokens(p) + after| && SnippetName(KeysIn(ctx, addr)) == None
         && |open| <= 1 && AllRead(open, "{") && (open == [] ==> !StartsOpen(raw + close + after))
         && Accounts(ctx, segs, raw)
         && |close| <= 1 && AllRead(close, "}") && (if close == [] then after == [] else EndsAfter(segs, close[0]))
       case Snippet(addr, brace, held, end, name) =>
         && SnippetName(KeysIn(ctx, addr)) == Some(name)
         && brace.text == "{" && end.text == "}" && Closes(held, 0)
       case Bare(addr) => addr != [] && after == []
  }

  /** The server block of a piece: none for a snippet, and none if every address is empty. */
  function BlockOf(ctx: Context, p: Piece): seq<ServerBlock> {
    var keys := KeysIn(ctx, p.addr);
    if p.Snippet? || keys == [] then [] else [ServerBlock(keys, Group(if p.Site? then p.segs else []))]
  }

  function SnippetsAfter(p: Piece, snips: Snippets): Snippets {
    if p.Snippet? then snips[p.name := p.held] else snips
  }

  /** The server block that the parser keeps of a turn. */
  function Kept(b: Block): seq<ServerBlock> {
    if b.keys == [] then [] else [ServerBlock(b.keys, Group(b.segs))]
  }

  /** What one turn of the parser may answer on a stream without imports. */
  ghost predicate TurnOutcome(ctx: Context, snips: Snippets, at: seq<Token>, imports: nat, r: Result<Block>, p: Piece) {
    && !r.OutOfImports?
    && (r.Ok? ==>
          && r.value.imports == imports && at == PieceTokens(p) + r.value.unread && |r.value.unread| < |at|
          && Accounted(ctx, p, r.value.unread) && Kept(r.value) == BlockOf(ctx, p)
          && (p.Snippet? ==> p.name !in snips) && r.value.snips == SnippetsAfter(p, snips))
  }

  /** Where the body of a block begins: after its opening brace, or with the first token. */
  function BodyStart(a: Addresses): Body {
    if Val(a.at) == "{" then Body(Some(a.at[0]), a.at[1..], [], a.imports) else Body(a.prev, a.at, [], a.imports)
  }

  function Opening(at: seq<Token>): seq<Token> {
    if StartsOpen(at) then [at[0]] else []
  }

  lemma {:induction false} ContentsOf(ctx: Context, snips: Snippets, a: Addresses)
    ensures var c, r := ScanBody(ctx, snips, BodyStart(a)), ScanContents(ctx, snips, a);
            && (r.OutOfImports? ==> c.OutOfImports?)
            && (r.Ok? ==>
                  && c.Ok? && r.value.segs == c.value.segs && r.value.unread == c.value.unread
                  && r.value.imports == c.value.imports && r.value.keys == a.keys && r.value.snips == snips)
  {
    hide ScanBody;
  }

  /** The body of a site, its end, and what follows. */
  ghost predicate BodyIs(ctx: Context, segs: seq<Segment>, body: seq<Token>, raw: seq<Token>, close: seq<Token>,
                         after: seq<Token>)
  {
    && body == raw + close + after && Accounts(ctx, segs, raw)
    && |close| <= 1 && AllRead(close, "}") && (if close == [] then after == [] else EndsAfter(segs, close[0]))
  }

  lemma {:induction false} BodySplits(ctx: Context, b: Body, r: Body, raw: seq<Token>) returns (close: seq<Token>)
    requires EndsBody(b, r, raw) && Accounts(ctx, r.segs, raw)
    ensures BodyIs(ctx, r.segs, b.unread, raw, close, r.unread)
  {
    hide Accounts, EndsAfter;
    close := if |raw| < |b.unread| then [b.unread[|raw|]] else [];
    assert b.unread == raw + close + r.unread;
  }

  lemma {:induction false} ContentsConserve(ctx: Context, snips: Snippets, a: Addresses)
    returns (raw: seq<Token>, close: seq<Token>)
    requires ImportFree(ctx, a.at)
    ensures var r := ScanContents(ctx, snips, a);
            && !r.OutOfImports?
            && (r.Ok? ==>
                  && r.value.imports == a.imports && r.value.keys == a.keys && r.value.snips == snips
                  && BodyIs(ctx, r.value.segs, BodyStart(a).unread, raw, close, r.value.unread))
  {
    hide ScanBody, ScanContents, Covers, EndsBody, Accounts, LaterHeads, BodyIs, ImportFree;
    var b := BodyStart(a);
    close := [];
    CoversNothing(ctx);
    SuffixImportFree(ctx, b.unread, a.at);
    raw := BodyConserves(ctx, snips, b, []);
    ContentsOf(ctx, snips, a);
    var c := ScanBody(ctx, snips, b);
    if c.Ok? {
      assert [] + raw == raw;
      CoversAccounts(ctx, c.value.segs, raw);
      close := BodySplits(ctx, b, c.value, raw);
    }
  }

  /** A stream cut after its addresses, and once more after the rest of a piece. */
  lemma {:induction false} Assembled(at: seq<Token>, n: nat, open: seq<Token>, middle: seq<Token>, after: seq<Token>)
    requires n <= |at| && at[n..] == open + (middle + after)
    ensures at == at[..n] + (open + middle) + after
  {
    ConcatAssociates(open, middle, after);
    ConcatAssociates(at[..n], open + middle, after);
    assert at == at[..n] + at[n..];
  }

  /** A site read from a stream is accounted for. */
  lemma {:induction false} SiteIs(ctx: Context, snips: Snippets, at: seq<Token>, n: nat, b: Block, open: seq<Token>,
                                  raw: seq<Token>, close: seq<Token>)
    requires n < |at| && AddressPart(ctx, false, at, n) && at == at[..n] + (open + (raw + close)) + b.unread
    requires b.keys == KeysIn(ctx, at[..n]) && SnippetName(b.keys) == None && b.snips == snips
    requires |open| <= 1 && AllRead(open, "{") && (open == [] ==> !StartsOpen(raw + close + b.unread))
    requires Accounts(ctx, b.segs, raw) && |close| <= 1 && AllRead(close, "}")
    requires if close == [] then b.unread == [] else EndsAfter(b.segs, close[0])
    ensures TurnOutcome(ctx, snips, at, b.imports, Ok(b), Site(at[..n], open, raw, close, b.segs))
  {
    hide AddressPart, KeysIn, SnippetName, Group, Accounts, AllRead, StartsOpen, EndsAfter;
    var p := Site(at[..n], open, raw, close, b.segs);
    assert PieceTokens(p) == at[..n] + (open + (raw + close));
    assert |b.unread| < |at|;
  }

  /** A turn that reads a site. */
  lemma {:induction false} SiteTurn(ctx: Context, snips: Snippets, at: seq<Token>, n: nat, a: Addresses)
    returns (p: Piece)
    requires ImportFree(ctx, at) && n < |at| && AddressPart(ctx, false, at, n) && a.at == at[n..]
    requires a.keys == KeysIn(ctx, at[..n]) && SnippetName(a.keys) == None
    ensures TurnOutcome(ctx, snips, at, a.imports, ScanContents(ctx, snips, a), p)
  {
    hide ScanContents, AddressPart, KeysIn, SnippetName, ImportFree, Group, Accounts, Accounted, BlockOf, Kept,
         PieceTokens;
    SuffixImportFree(ctx, a.at, at);
    var raw, close := ContentsConserve(ctx, snips, a);
    var r := ScanContents(ctx, snips, a);
    p := Bare([]);
    if r.Ok? {
      var open, body := Opening(a.at), BodyStart(a).unread;
      p := Site(at[..n], open, raw, close, r.value.segs);
      assert a.at == open + body;
      Assembled(at, n, open, raw + close, r.value.unread);
      SiteIs(ctx, snips, at, n, r.value, open, raw, close);
    }
  }

  /** A snippet read from a stream is accounted for. */
  lemma {:induction false} SnippetIs(ctx: Context, snips: Snippets, at: seq<Token>, n: nat, b: Block, p: Piece)
    requires p.Snippet? && n < |at| && AddressPart(ctx, false, at, n) && p.addr == at[..n]
    requires at == at[..n] + ([p.brace] + (p.held + [p.end])) + b.unread
    requires SnippetName(KeysIn(ctx, p.addr)) == Some(p.name) && p.name !in snips
    requires p.brace.text == "{" && p.end.text == "}" && Closes(p.held, 0)
    requires b.keys == [] && b.snips == snips[p.name := p.held]
    ensures TurnOutcome(ctx, snips, at, b.imports, Ok(b), p)
  {
    hide AddressPart, KeysIn, SnippetName, Group, Closes;
    assert PieceTokens(p) == at[..n] + ([p.brace] + (p.held + [p.end]));
    assert |b.unread| < |at|;
  }

  /** A turn that stores a snippet. */
  lemma {:induction false} SnippetTurn(ctx: Context, snips: Snippets, at: seq<Token>, n: nat, a: Addresses,
                                       name: string)
    returns (p: Piece)
    requires n < |at| && AddressPart(ctx, false, at, n) && a.at == at[n..]
    requires a.keys == KeysIn(ctx, at[..n]) && SnippetName(a.keys) == Some(name)
    ensures TurnOutcome(ctx, snips, at, a.imports, ScanStored(snips, a, name), p)
  {
    hide ScanSnippet, AddressPart, KeysIn, SnippetName, Closes, Group, Accounted, BlockOf, Kept, PieceTokens;
    p := Bare([]);
    if name !in snips && Val(a.at) == "{" {
      var s := Stored(a.at[0], a.at[1..], []);
      SnippetConserves(s, 1);
      var r := ScanSnippet(s, 1);
      if r.Ok? {
        var held, end := HeldBy(s, r.value);
        p := Snippet(at[..n], a.at[0], held, end, name);
        assert a.at == [a.at[0]] + s.unread;
        Assembled(at, n, [a.at[0]], held + [end], r.value.unread);
        SnippetIs(ctx, snips, at, n, ScanStored(snips, a, name).value, p);
      }
    }
  }

  lemma {:induction false} HeldBy(s: Stored, r: Stored) returns (held: seq<Token>, end: Token)
    requires s.tokens == [] && SnippetOutcome(s, 1, Ok(r))
    ensures s.unread == held + [end] + r.unread && end.text == "}" && Closes(held, 0)
    ensures r.tokens == held && r.last == end
  {
    hide Closes;
    var k := |s.unread| - |r.unread| - 1;
    held, end := s.unread[..k], s.unread[k];
    assert [] + held == held;
  }

  /**
   Conservation, for every stream without imports and in every context: one turn of the parser
   answers a block or an error, never running out of imports. When it answers a block, the tokens it
   read are a piece of the input: addresses, and a site's body or a snippet; and the block has
   exactly the piece's addresses and directives.
   */
  lemma {:induction false} BlockConserves(ctx: Context, snips: Snippets, prev: Option<Token>, at: seq<Token>,
                                          imports: nat)
    returns (p: Piece)
    requires at != [] && ImportFree(ctx, at)
    ensures TurnOutcome(ctx, snips, at, imports, ScanOne(ctx, snips, prev, at, imports), p)
  {
    hide ScanAddresses, ScanContents, ScanStored, SnippetName, AddressPart, KeysIn, TurnOutcome, Accounted, ImportFree;
    var a0 := Addresses(prev, at, [], false, false, imports);
    AddressesConserve(ctx, snips, a0);
    var addresses := ScanAddresses(ctx, snips, a0);
    p := Bare(at);
    if addresses.Ok? {
      var a, n := addresses.value, AddressCount(a0, addresses.value);
      assert [] + KeysIn(ctx, at[..n]) == KeysIn(ctx, at[..n]);
      if a.eof {
        BareTurn(ctx, snips, at, a);
      } else {
        match SnippetName(a.keys)
        case Some(name) => p := SnippetTurn(ctx, snips, at, n, a, name);
        case None => p := SiteTurn(ctx, snips, at, n, a);
      }
    } else {
      FailedTurn(ctx, snips, at, imports, addresses, p);
    }
  }

  /** A turn that ends with the addresses. */
  lemma {:induction false} BareTurn(ctx: Context, snips: Snippets, at: seq<Token>, a: Addresses)
    requires at != [] && AddressPart(ctx, false, at, |at|) && a.keys == KeysIn(ctx, at[..|at|])
    ensures TurnOutcome(ctx, snips, at, a.imports,
                        Ok(Block(a.keys, [], if a.at == [] then None else Some(a.at[0]), [], snips, a.imports)),
                        Bare(at))
  {
    hide AddressPart, KeysIn;
    assert at[..|at|] == at && at + [] == at;
  }

  lemma {:induction false} FailedTurn(ctx: Context, snips: Snippets, at: seq<Token>, imports: nat, r: Result<Addresses>,
                                      p: Piece)
    requires r.Err?
    ensures TurnOutcome(ctx, snips, at, imports, Err(r.error), p)
  {
  }

  // ---------------------------------------------------------------------------------------------
  // A whole input
  // ---------------------------------------------------------------------------------------------

  function Tokens(pieces: seq<Piece>): seq<Token> {
    if pieces == [] then [] else PieceTokens(pieces[0]) + Tokens(pieces[1..])
  }

  /** The server blocks of the pieces, in order. */
  function Blocks(ctx: Context, pieces: seq<Piece>): seq<ServerBlock> {
    if pieces == [] then [] else BlockOf(ctx, pieces[0]) + Blocks(ctx, pieces[1..])
  }

  /** Every piece is what it claims to be, and every snippet has a name of its own. */
  ghost predicate AllAccounted(ctx: Context, snips: Snippets, pieces: seq<Piece>)
    decreases |pieces|
  {
    pieces == [] ||
    (&& Accounted(ctx, pieces[0], Tokens(pieces[1..])) && (pieces[0].Snippet? ==> pieces[0].name !in snips)
     && AllAccounted(ctx, SnippetsAfter(pieces[0], snips), pieces[1..]))
  }

  ghost predicate ParseOutcome(ctx: Context, snips: Snippets, unread: seq<Token>, blocks: seq<ServerBlock>, r: Parsed,
                               pieces: seq<Piece>)
  {
    && !r.outcome.OutOfImports?
    && (r.outcome.Ok? ==>
          && Tokens(pieces) == unread && AllAccounted(ctx, snips, pieces)
          && r.blocks == blocks + Blocks(ctx, pieces))
  }

  lemma {:induction false} PieceFirst(ctx: Context, snips: Snippets, unread: seq<Token>, blocks: seq<ServerBlock>,
                                      imports: nat, b: Block, r: Parsed, p: Piece, rest: seq<Piece>)
    requires TurnOutcome(ctx, snips, unread, imports, Ok(b), p)
    requires ParseOutcome(ctx, b.snips, b.unread, blocks + Kept(b), r, rest)
    ensures ParseOutcome(ctx, snips, unread, blocks, r, [p] + rest)
  {
    hide Accounted, BlockOf, Kept, PieceTokens;
    var pieces := [p] + rest;
    assert pieces[0] == p && pieces[1..] == rest;
    ConcatAssociates(blocks, BlockOf(ctx, p), Blocks(ctx, rest));
  }

  /**
   Without imports a whole parse ends in blocks or an error, in every context and whatever the
   allowance of imports. On success the input is cut into consecutive pieces, nothing left over and
   nothing twice: sites, snippets of different names, and perhaps addresses alone at the end; and
   the blocks are those of the pieces that have an address, in order, with all their directives.
   */
  lemma {:induction false} ParseConserves(ctx: Context, snips: Snippets, last: Option<Token>, unread: seq<Token>,
                                          blocks: seq<ServerBlock>, imports: nat)
    returns (pieces: seq<Piece>)
    requires ImportFree(ctx, unread)
    ensures ParseOutcome(ctx, snips, unread, blocks, ScanAll(ctx, snips, last, unread, blocks, imports), pieces)
    decreases |unread|
  {
    hide ScanOne, ImportFree, Group, AllAccounted, Accounted, Tokens, BlockOf, PieceTokens;
    pieces := [];
    NoPieces(ctx, snips);
    if unread == [] {
      assert blocks + [] == blocks;
    } else {
      var p := BlockConserves(ctx, snips, last, unread, imports);
      var r := ScanOne(ctx, snips, last, unread, imports);
      if r.Ok? {
        var b := r.value;
        SuffixAfter(unread, PieceTokens(p), b.unread);
        SuffixImportFree(ctx, b.unread, unread);
        var blocks' := if b.keys == [] then blocks else blocks + [ServerBlock(b.keys, Group(b.segs))];
        assert blocks' == blocks + Kept(b);
        var rest := ParseConserves(ctx, b.snips, b.last, b.unread, blocks', b.imports);
        PieceFirst(ctx, snips, unread, blocks, imports, b,
                   ScanAll(ctx, b.snips, b.last, b.unread, blocks', b.imports), p, rest);
        pieces := [p] + rest;
      }
    }
  }

  lemma {:induction false} NoPieces(ctx: Context, snips: Snippets)
    ensures Tokens([]) == [] && AllAccounted(ctx, snips, []) && Blocks(ctx, []) == []
  {
  }

  lemma {:induction false} SuffixAfter(at: seq<Token>, read: seq<Token>, unread: seq<Token>)
    requires at == read + unread
    ensures Suffix(unread, at)
  {
  }
}
