/**
 Printing of string atoms by the JSON-to-Caddyfile printer (caddyfile/json.go) against the lexer
 that reads them back, with the exact set of strings that survive the trip.
 */
module Atoms {
  import opened Lexer

  predicate NeedsQuotes(v: string) {
    exists i :: 0 <= i < |v| && v[i] in {'"', ' ', '\n', '\t', '\r'}
  }

  /** Puts a backslash before every quote, and touches nothing else. */
  function EscapeQuotes(v: string): string {
    if v == [] then [] else (if v[0] == '"' then ['\\', '"'] else [v[0]]) + EscapeQuotes(v[1..])
  }

  /** The text printed for a string atom. */
  function PrintAtom(v: string): string {
    if NeedsQuotes(v) then ['"'] + EscapeQuotes(v) + ['"'] else v
  }

  /** An atom is printed as it is if and only if it has no quote, blank, tab or end of a line. */
  lemma {:induction false} PlainAtom(v: string)
    ensures PrintAtom(v) == v <==> forall i :: 0 <= i < |v| ==> v[i] !in "\" \n\t\r"
  {
    NotShorter(v);
    var special := "\" \n\t\r";
    assert special[0] == '"' && special[1] == ' ' && special[2] == '\n' && special[3] == '\t' && special[4] == '\r';
  }

  lemma {:induction false} NotShorter(v: string)
    ensures |EscapeQuotes(v)| >= |v|
  {
    if v != [] {
      NotShorter(v[1..]);
    }
  }

  // ---------------------------------------------------------------------------------------------
  // The strings that survive
  // ---------------------------------------------------------------------------------------------

  /** The length of the maximal run of backslashes that ends just before index i. */
  function BackslashRun(v: string, i: nat): nat
    requires i <= |v|
  {
    if i > 0 && v[i - 1] == '\\' then 1 + BackslashRun(v, i - 1) else 0
  }

  /** From index i on, every backslash run followed by a quote or by the end of v is of even length. */
  ghost predicate EvenRunsFrom(v: string, i: nat)
    requires i <= |v|
  {
    forall j :: i <= j <= |v| && (j == |v| || v[j] == '"') ==> BackslashRun(v, j) % 2 == 0
  }

  /** A character that an unquoted word keeps as it is. */
  predicate WordChar(c: char) {
    !IsSpace(c) && c != '#'
  }

  ghost predicate PlainWord(v: string) {
    && v != [] && v[0] != '"'
    && forall i :: 0 <= i < |v| ==> WordChar(v[i])
  }

  ghost predicate Survives(v: string) {
    if NeedsQuotes(v) then EvenRunsFrom(v, 0)
    else v != [] && forall i :: 0 <= i < |v| ==> WordChar(v[i])
  }

  // ---------------------------------------------------------------------------------------------
  // Quoted atoms
  // ---------------------------------------------------------------------------------------------

  /** The lexer's mode after reading the escaped form of v[..i] without a mishap. */
  function QuotedAt(v: string, i: nat, at: nat): Mode
    requires i <= |v|
  {
    if BackslashRun(v, i) % 2 == 1 then Quoted(v[..i - 1], at, true) else Quoted(v[..i], at, false)
  }

  /** One character of the value, read in its escaped form. */
  lemma {:induction false} QuotedStep(v: string, i: nat, at: nat, line: nat)
    requires i < |v| && v[i] != '"'
    ensures Step(State(QuotedAt(v, i, at), line), v[i]) ==
            State(QuotedAt(v, i + 1, at), line + Breaks([v[i]]))
    ensures Emit(State(QuotedAt(v, i, at), line), v[i]) == []
  {
    assert v[..i + 1] == v[..i] + [v[i]];
    if BackslashRun(v, i) % 2 == 1 {
      assert v[..i + 1] == v[..i - 1] + ['\\', v[i]];
    }
    assert [v[i]][1..] == [];
  }

  /** A quote of the value is read back when an even run of backslashes stands before it. */
  lemma {:induction false} QuotedQuote(v: string, i: nat, at: nat, line: nat, tail: string)
    requires i < |v| && v[i] == '"' && BackslashRun(v, i) % 2 == 0
    ensures Run(State(QuotedAt(v, i, at), line), ['\\', '"'] + tail) == Run(State(QuotedAt(v, i + 1, at), line), tail)
  {
    var st := State(QuotedAt(v, i, at), line);
    assert ['\\', '"'] + tail == ['\\'] + (['"'] + tail);
    RunCons(st, '\\', ['"'] + tail);
    RunCons(Step(st, '\\'), '"', tail);
    assert v[..i + 1] == v[..i] + ['"'];
  }

  /** A quote of the value closes the token early when an odd run of backslashes stands before it. */
  lemma {:induction false} QuotedBreak(v: string, i: nat, at: nat, line: nat, tail: string)
    requires i < |v| && v[i] == '"' && BackslashRun(v, i) % 2 == 1
    ensures Run(State(QuotedAt(v, i, at), line), ['\\', '"'] + tail) != [Token("", at, v)]
  {
    var st := State(QuotedAt(v, i, at), line);
    var cut := v[..i - 1] + ['\\', '\\'];
    assert ['\\', '"'] + tail == ['\\'] + (['"'] + tail);
    RunCons(st, '\\', ['"'] + tail);
    RunCons(Step(st, '\\'), '"', tail);
    assert Run(st, ['\\', '"'] + tail)[0] == Token("", at, cut);
    assert cut[i] == '\\';
  }

  /** What reading the rest of an escaped value from index i must give. */
  ghost predicate ReadsBack(v: string, i: nat, at: nat, line: nat, tail: string, read: seq<Token>)
    requires i <= |v|
  {
    && (EvenRunsFrom(v, i) ==>
          read == [Token("", at, v)] + Run(State(Idle(false), line + Breaks(v[i..])), tail))
    && (!EvenRunsFrom(v, i) && tail == [] ==> read != [Token("", at, v)])
  }

  /** The closing quote: read as such, unless an odd run of backslashes stands before it. */
  lemma {:induction false} QuotedEnd(v: string, at: nat, line: nat, tail: string)
    ensures ReadsBack(v, |v|, at, line, tail, Run(State(QuotedAt(v, |v|, at), line), ['"'] + tail))
  {
    hide Run;
    var st := State(QuotedAt(v, |v|, at), line);
    assert v[..|v|] == v;
    RunCons(st, '"', tail);
    if BackslashRun(v, |v|) % 2 == 1 && tail == [] {
      var kept := v[..|v| - 1] + ['"'];
      assert Step(st, '"') == State(Quoted(kept, at, false), line);
      RunEnd(Step(st, '"'));
      assert Run(st, ['"'] + tail) == [Token("", at, kept)];
      assert kept[|v| - 1] == '"' && v[|v| - 1] == '\\';
    }
  }

  lemma {:induction false} EvenRunsStep(v: string, i: nat)
    requires i < |v|
    ensures EvenRunsFrom(v, i) <==> EvenRunsFrom(v, i + 1) && (v[i] == '"' ==> BackslashRun(v, i) % 2 == 0)
  {
    hide BackslashRun;
  }

  /** Reading the rest of the escaped value and the closing quote. */
  lemma {:induction false} QuotedFrom(v: string, i: nat, at: nat, line: nat, tail: string)
    requires i <= |v|
    ensures ReadsBack(v, i, at, line, tail,
                      Run(State(QuotedAt(v, i, at), line), EscapeQuotes(v[i..]) + (['"'] + tail)))
    decreases |v| - i
  {
    hide Run, BackslashRun, QuotedAt, EvenRunsFrom;
    var st := State(QuotedAt(v, i, at), line);
    if i == |v| {
      assert EscapeQuotes(v[i..]) + (['"'] + tail) == ['"'] + tail;
      QuotedEnd(v, at, line, tail);
    } else {
      var rest := EscapeQuotes(v[i + 1..]) + (['"'] + tail);
      EscapeFirst(v, i, ['"'] + tail);
      BreaksFirst(v, i);
      EvenRunsStep(v, i);
      if v[i] == '"' {
        if BackslashRun(v, i) % 2 == 0 {
          QuotedQuote(v, i, at, line, rest);
          QuotedFrom(v, i + 1, at, line, tail);
        } else {
          QuotedBreak(v, i, at, line, rest);
        }
      } else {
        QuotedStep(v, i, at, line);
        RunCons(st, v[i], rest);
        QuotedFrom(v, i + 1, at, line + Breaks([v[i]]), tail);
      }
    }
  }

  lemma {:induction false} EscapeFirst(v: string, i: nat, tail: string)
    requires i < |v|
    ensures EscapeQuotes(v[i..]) + tail ==
            (if v[i] == '"' then ['\\', '"'] else [v[i]]) + (EscapeQuotes(v[i + 1..]) + tail)
  {
    assert v[i..][1..] == v[i + 1..];
  }

  lemma {:induction false} BreaksFirst(v: string, i: nat)
    requires i < |v|
    ensures Breaks(v[i..]) == Breaks([v[i]]) + Breaks(v[i + 1..])
    ensures v[i] == '"' ==> Breaks([v[i]]) == 0
  {
    assert v[i..][1..] == v[i + 1..];
    assert [v[i]][1..] == [];
  }

  /** Reading the opening quote. */
  lemma {:induction false} OpenQuote(v: string, line: nat, tail: string)
    requires NeedsQuotes(v)
    ensures Run(State(Idle(false), line), PrintAtom(v) + tail) ==
            Run(State(QuotedAt(v, 0, line), line), EscapeQuotes(v[0..]) + (['"'] + tail))
  {
    assert v[0..] == v && v[..0] == [];
    var inner := EscapeQuotes(v) + (['"'] + tail);
    assert PrintAtom(v) + tail == ['"'] + inner;
    RunCons(State(Idle(false), line), '"', inner);
  }

  // ---------------------------------------------------------------------------------------------
  // Unquoted atoms
  // ---------------------------------------------------------------------------------------------

  /** A place where an unquoted word ends: the end of input, or white space other than '\r'. */
  predicate Ends(tail: string) {
    tail == [] || (IsSpace(tail[0]) && tail[0] != '\r')
  }

  /** A word that ends here leaves the lexer as if it were between tokens. */
  lemma {:induction false} WordEnds(v: string, at: nat, line: nat, tail: string)
    requires v != [] && Ends(tail)
    ensures Run(State(Word(v, at, false), line), tail) == [Token("", at, v)] + Run(State(Idle(false), line), tail)
  {
  }

  lemma {:induction false} WordFrom(v: string, i: nat, at: nat, line: nat, tail: string)
    requires 0 < i <= |v| && (forall j :: i <= j < |v| ==> WordChar(v[j])) && Ends(tail)
    ensures Run(State(Word(v[..i], at, false), line), v[i..] + tail) ==
            [Token("", at, v)] + Run(State(Idle(false), line), tail)
    decreases |v| - i
  {
    if i == |v| {
      assert v[..i] == v && v[i..] + tail == tail;
      WordEnds(v, at, line, tail);
    } else {
      assert v[i..] + tail == [v[i]] + (v[i + 1..] + tail);
      RunCons(State(Word(v[..i], at, false), line), v[i], v[i + 1..] + tail);
      assert v[..i + 1] == v[..i] + [v[i]];
      WordFrom(v, i + 1, at, line, tail);
    }
  }

  /** A plain word standing between delimiters is read as one token with the same text. */
  lemma {:induction false} WordLexes(v: string, line: nat, tail: string)
    requires PlainWord(v) && Ends(tail)
    ensures Run(State(Idle(false), line), v + tail) ==
            [Token("", line, v)] + Run(State(Idle(false), line), tail)
  {
    assert v + tail == [v[0]] + (v[1..] + tail);
    assert WordChar(v[0]);
    RunCons(State(Idle(false), line), v[0], v[1..] + tail);
    assert v[..1] == [v[0]];
    WordFrom(v, 1, line, line, tail);
  }

  /** Characters of texts already read off or pending; a backslash held back counts too. */
  ghost function Weight(st: State): nat {
    if st.mode.Idle? then 0
    else |st.mode.val| + (if st.mode.Quoted? && st.mode.escaped then 1 else 0)
  }

  ghost function TextLength(ts: seq<Token>): nat {
    if ts == [] then 0 else |ts[0].text| + TextLength(ts[1..])
  }

  /** The lexer never makes text: all tokens together are no longer than the input. */
  lemma {:induction false} NoTextMade(st: State, s: string)
    ensures TextLength(Run(st, s)) <= Weight(st) + |s|
    decreases s
  {
    if s != [] {
      assert s == [s[0]] + s[1..];
      RunCons(st, s[0], s[1..]);
      hide Run;
      NoTextMade(Step(st, s[0]), s[1..]);
      var e, rest := Emit(st, s[0]), Run(Step(st, s[0]), s[1..]);
      if e == [] {
        assert e + rest == rest;
      } else {
        assert (e + rest)[1..] == rest;
      }
    }
  }

  /** An unquoted value with a character that words do not keep comes back shorter. */
  lemma {:induction false} WordLoses(v: string, i: nat, st: State)
    requires i <= |v| && !NeedsQuotes(v) && !st.mode.Quoted?
    requires exists j :: i <= j < |v| && !WordChar(v[j])
    ensures TextLength(Run(st, v[i..])) < Weight(st) + |v| - i
    decreases |v| - i
  {
    assert v[i..] == [v[i]] + v[i + 1..];
    assert v[i] !in {'"', ' ', '\n', '\t', '\r'};
    RunCons(st, v[i], v[i + 1..]);
    var e, rest := Emit(st, v[i]), Run(Step(st, v[i]), v[i + 1..]);
    if WordChar(v[i]) {
      WordLoses(v, i + 1, Step(st, v[i]));
    } else {
      NoTextMade(Step(st, v[i]), v[i + 1..]);
    }
    if e == [] {
      assert e + rest == rest;
    } else {
      assert (e + rest)[1..] == rest;
    }
  }

  // ---------------------------------------------------------------------------------------------
  // The round trip
  // ---------------------------------------------------------------------------------------------

  /**
   In any context: a surviving atom, printed where a token may start and followed by a delimiter,
   is read as exactly one token with the same text, and the lexer goes on from the line it ends on.
   */
  lemma {:induction false} AtomLexes(v: string, line: nat, tail: string)
    requires Survives(v) && Ends(tail)
    ensures Run(State(Idle(false), line), PrintAtom(v) + tail) ==
            [Token("", line, v)] + Run(State(Idle(false), line + Breaks(v)), tail)
  {
    if NeedsQuotes(v) {
      QuotedLexes(v, line, tail);
    } else {
      UnquotedPlain(v);
      WordLexes(v, line, tail);
    }
  }

  lemma {:induction false} QuotedLexes(v: string, line: nat, tail: string)
    requires NeedsQuotes(v) && EvenRunsFrom(v, 0)
    ensures Run(State(Idle(false), line), PrintAtom(v) + tail) ==
            [Token("", line, v)] + Run(State(Idle(false), line + Breaks(v)), tail)
  {
    OpenQuote(v, line, tail);
    QuotedFrom(v, 0, line, line, tail);
    assert v[0..] == v;
  }

  lemma {:induction false} UnquotedPlain(v: string)
    requires Survives(v) && !NeedsQuotes(v)
    ensures PlainWord(v) && Breaks(v) == 0
  {
    assert v[0] !in {'"', ' ', '\n', '\t', '\r'};
    forall i | 0 <= i < |v|
      ensures v[i] != '\n'
    {
      assert WordChar(v[i]);
    }
    NoBreaks(v);
  }

  /**
   Exact domain: a printed string lexes back to the single token with the same text if and only
   if it survives.
   */
  lemma {:induction false} AtomRoundTrip(v: string, line: nat)
    ensures Run(State(Idle(false), line), PrintAtom(v)) == [Token("", line, v)] <==> Survives(v)
  {
    assert PrintAtom(v) + [] == PrintAtom(v);
    var st := State(Idle(false), line);
    if Survives(v) {
      AtomLexes(v, line, []);
    } else if NeedsQuotes(v) {
      OpenQuote(v, line, []);
      QuotedFrom(v, 0, line, line, []);
    } else if v != [] {
      assert v[0..] == v;
      WordLoses(v, 0, st);
    }
  }

  /** The same for a whole file, where a leading byte order mark would be dropped. */
  lemma {:induction false} AtomFileRoundTrip(v: string)
    ensures Lex(PrintAtom(v)) == [Token("", 1, v)] <==> Survives(v) && (NeedsQuotes(v) || v[0] != BOM)
  {
    var p := PrintAtom(v);
    if p != [] && p[0] == BOM {
      assert !NeedsQuotes(v) && p == v;
      NoTextMade(Start, p[1..]);
      assert TextLength([Token("", 1, v)]) == |v|;
    } else {
      AtomRoundTrip(v, 1);
    }
  }
}
