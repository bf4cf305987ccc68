/**
 Line accounting of the lexer: where tokens start, which line number they carry, and how the
 numbers of consecutive tokens relate. The dispenser's notion of "same line" rests on this.
 */
module LexerLines {
  import opened Lexer

  /**
   The offset of the first character of each token (the opening quote, for a quoted token) when s
   is read from state st at offset `off`; `start` is the offset of the token under construction.
   */
  ghost function Starts(st: State, s: string, off: nat, start: nat): seq<nat>
    decreases s
  {
    if s == [] then
      if Finish(st) != [] then [start] else []
    else
      (if Emit(st, s[0]) != [] then [start] else []) +
      Starts(Step(st, s[0]), s[1..], off + 1, if st.mode.Idle? then off else start)
  }

  /** A pending token begins with the character it started on, unless that is an opening quote. */
  ghost predicate Begun(mode: Mode, c: char) {
    match mode
    case Idle(_) => true
    case Word(val, _, _) => val != [] && val[0] == c
    case Quoted(_, _, _) => c == '"'
  }

  /** The token's first character is at p: its opening quote, or the first character of its text. */
  ghost predicate BeginsAt(t: Token, input: string, p: nat) {
    p < |input| && !IsSpace(input[p]) && (input[p] == '"' || (t.text != [] && t.text[0] == input[p]))
  }

  /** What a token read from an input from offset p on carries. */
  ghost predicate Placed(t: Token, input: string, p: nat) {
    BeginsAt(t, input, p) && t.line == 1 + Breaks(input[..p]) && t.file == ""
  }

  /** The state's line counter, and the line its pending token started on, count line breaks read. */
  ghost predicate Counted(st: State, input: string, off: nat, start: nat) {
    && off <= |input|
    && st.line == 1 + Breaks(input[..off])
    && (!st.mode.Idle? ==>
          && start < off && st.mode.at == 1 + Breaks(input[..start])
          && !IsSpace(input[start]) && Begun(st.mode, input[start]))
  }

  lemma {:induction false} StepCounted(st: State, input: string, off: nat, start: nat)
    requires Counted(st, input, off, start) && off < |input|
    ensures Counted(Step(st, input[off]), input, off + 1, if st.mode.Idle? then off else start)
  {
    assert input[..off + 1] == input[..off] + [input[off]];
    BreaksConcat(input[..off], [input[off]]);
  }

  /** Each token is placed at its start. */
  ghost predicate AllPlaced(ts: seq<Token>, input: string, starts: seq<nat>) {
    |ts| == |starts| && forall k :: 0 <= k < |ts| ==> Placed(ts[k], input, starts[k])
  }

  lemma {:induction false} AllPlacedFirst(t: seq<Token>, p: seq<nat>, ts: seq<Token>, input: string, starts: seq<nat>)
    requires AllPlaced(t, input, p) && AllPlaced(ts, input, starts)
    ensures AllPlaced(t + ts, input, p + starts)
  {
    hide Placed;
  }

  lemma {:induction false} EmitPlaced(st: State, input: string, off: nat, start: nat)
    requires Counted(st, input, off, start) && off < |input|
    ensures AllPlaced(Emit(st, input[off]), input, if Emit(st, input[off]) != [] then [start] else [])
  {
    hide Breaks, IsSpace;
  }

  lemma {:induction false} FinishPlaced(st: State, input: string, off: nat, start: nat)
    requires Counted(st, input, off, start)
    ensures AllPlaced(Finish(st), input, if Finish(st) != [] then [start] else [])
  {
    hide Breaks, IsSpace;
  }

  /** One turn of reading, for the tokens and for their starts. */
  lemma {:induction false} OneRead(st: State, input: string, off: nat, start: nat)
    requires off <= |input|
    ensures off == |input| ==>
              && Run(st, input[off..]) == Finish(st)
              && Starts(st, input[off..], off, start) == if Finish(st) != [] then [start] else []
    ensures off < |input| ==>
              && Run(st, input[off..]) == Emit(st, input[off]) + Run(Step(st, input[off]), input[off + 1..])
              && Starts(st, input[off..], off, start) ==
                 (if Emit(st, input[off]) != [] then [start] else []) +
                 Starts(Step(st, input[off]), input[off + 1..], off + 1, if st.mode.Idle? then off else start)
  {
    hide Emit, Finish, Step;
    if off < |input| {
      assert input[off..][1..] == input[off + 1..];
    }
  }

  /** Every token's Line is one plus the line breaks before its first character. */
  lemma {:induction false} LineFrom(st: State, input: string, off: nat, start: nat)
    requires Counted(st, input, off, start)
    ensures AllPlaced(Run(st, input[off..]), input, Starts(st, input[off..], off, start))
    decreases |input| - off
  {
    hide Run, Starts, Counted, AllPlaced, Emit, Finish, Step;
    CountedRange(st, input, off, start);
    OneRead(st, input, off, start);
    if off < |input| {
      var start' := if st.mode.Idle? then off else start;
      EmitPlaced(st, input, off, start);
      StepCounted(st, input, off, start);
      LineFrom(Step(st, input[off]), input, off + 1, start');
      AllPlacedFirst(Emit(st, input[off]), if Emit(st, input[off]) != [] then [start] else [],
                     Run(Step(st, input[off]), input[off + 1..]), input,
                     Starts(Step(st, input[off]), input[off + 1..], off + 1, start'));
    } else {
      FinishPlaced(st, input, off, start);
    }
  }

  lemma {:induction false} CountedRange(st: State, input: string, off: nat, start: nat)
    requires Counted(st, input, off, start)
    ensures off <= |input|
  {
  }

  /** The starts are in increasing order, so each token begins after the one before it. */
  lemma {:induction false} StartsIncrease(st: State, s: string, off: nat, start: nat)
    requires !st.mode.Idle? ==> start < off
    ensures forall k :: 0 <= k < |Starts(st, s, off, start)| ==>
                          Starts(st, s, off, start)[k] >= (if st.mode.Idle? then off else start)
    ensures forall j, k :: 0 <= j < k < |Starts(st, s, off, start)| ==>
                             Starts(st, s, off, start)[j] < Starts(st, s, off, start)[k]
    decreases s
  {
    if s != [] {
      StartsIncrease(Step(st, s[0]), s[1..], off + 1, if st.mode.Idle? then off else start);
    }
  }

  /**
   For every input: the tokens begin, in order, with the characters at their starts (or with the
   quotes there), and each token's Line is one plus the number of line breaks before its start.
   */
  lemma {:induction false} TokenLines(input: string)
    ensures var text := SkipBom(input);
            var starts := Starts(Start, text, 0, 0);
            && |Lex(input)| == |starts|
            && (forall j, k :: 0 <= j < k < |starts| ==> starts[j] < starts[k])
            && (forall k :: 0 <= k < |starts| ==>
                              && BeginsAt(Lex(input)[k], text, starts[k])
                              && Lex(input)[k].line == 1 + Breaks(text[..starts[k]])
                              && Lex(input)[k].file == "")
  {
    var text := SkipBom(input);
    assert text[0..] == text;
    LineFrom(Start, text, 0, 0);
    StartsIncrease(Start, text, 0, 0);
  }

  /** The line breaks kept in the pending text are among those counted since the token began. */
  ghost predicate Behind(st: State) {
    !st.mode.Idle? ==> st.mode.at + Breaks(st.mode.val) <= st.line
  }

  lemma {:induction false} StepBehind(st: State, c: char)
    requires Behind(st)
    ensures Behind(Step(st, c))
  {
    if !st.mode.Idle? {
      BreaksConcat(st.mode.val, [c]);
      BreaksConcat(st.mode.val, ['\\', c]);
      assert ['\\', c][1..] == [c];
    }
  }

  /** Consecutive tokens: a token ends no later than the line on which the next one starts. */
  ghost predicate Ordered(ts: seq<Token>) {
    forall k {:trigger ts[k]} :: 0 <= k < |ts| - 1 ==> ts[k].line + Breaks(ts[k].text) <= ts[k + 1].line
  }

  /** The earliest line a token still to come can carry. */
  ghost function Floor(st: State): nat {
    if st.mode.Idle? then st.line else st.mode.at
  }

  lemma {:induction false} EmitOrdered(st: State, c: char)
    requires Behind(st)
    ensures Floor(st) <= Floor(Step(st, c))
    ensures Emit(st, c) != [] ==>
              && |Emit(st, c)| == 1 && Emit(st, c)[0].line == Floor(st)
              && Emit(st, c)[0].line + Breaks(Emit(st, c)[0].text) <= Floor(Step(st, c))
  {
  }

  lemma {:induction false} OrderedCons(t: Token, ts: seq<Token>)
    requires Ordered(ts) && (ts != [] ==> t.line + Breaks(t.text) <= ts[0].line)
    ensures Ordered([t] + ts)
  {
  }

  lemma {:induction false} RunOrdered(st: State, s: string)
    requires Behind(st)
    ensures Ordered(Run(st, s))
    ensures Run(st, s) != [] ==> Floor(st) <= Run(st, s)[0].line
    decreases s
  {
    if s != [] {
      var e, rest := Emit(st, s[0]), Run(Step(st, s[0]), s[1..]);
      StepBehind(st, s[0]);
      EmitOrdered(st, s[0]);
      RunOrdered(Step(st, s[0]), s[1..]);
      assert Run(st, s) == e + rest;
      if e == [] {
        assert e + rest == rest;
      } else {
        OrderedCons(e[0], rest);
        assert e + rest == [e[0]] + rest;
      }
    }
  }

  /** For every input, Line + breaks(Text) of a token is at most the next token's Line. */
  lemma {:induction false} ConsecutiveLines(input: string)
    ensures Ordered(Lex(input))
  {
    RunOrdered(Start, SkipBom(input));
  }
}
