/**
 The character-level lexer of the Caddyfile language (caddyfile/lexer.go).

 `Run` is the specification: a left-to-right machine that knows nothing of readers or calls.
 `Scanner` is the stateful lexer that produces one token per call of `Next`; its contract says
 that the tokens it hands out, call after call, are exactly the tokens of the machine.
 */
module Lexer {

  datatype Token = Token(file: string, line: nat, text: string)

  /** The byte order mark that `load` discards at the start of an input. */
  const BOM: char := '\U{FEFF}'

  /** Unicode white space, as unicode.IsSpace reports it. */
  predicate IsSpace(c: char) {
    || '\t' <= c <= '\r' || c == ' ' || c == '\U{85}' || c == '\U{A0}'
    || c == '\U{1680}' || '\U{2000}' <= c <= '\U{200A}'
    || c == '\U{2028}' || c == '\U{2029}' || c == '\U{202F}' || c == '\U{205F}' || c == '\U{3000}'
  }

  /** The number of line breaks in s. */
  function Breaks(s: string): nat {
    if s == [] then 0 else (if s[0] == '\n' then 1 else 0) + Breaks(s[1..])
  }

  lemma {:induction false} NoBreaks(v: string)
    requires forall i :: 0 <= i < |v| ==> v[i] != '\n'
    ensures Breaks(v) == 0
  {
    if v != [] {
      NoBreaks(v[1..]);
    }
  }

  lemma {:induction false} BreaksConcat(a: string, b: string)
    ensures Breaks(a + b) == Breaks(a) + Breaks(b)
  {
    if a == [] {
      assert a + b == b;
    } else {
      BreaksConcat(a[1..], b);
      assert (a + b)[1..] == a[1..] + b;
    }
  }

  // ---------------------------------------------------------------------------------------------
  // The machine
  // ---------------------------------------------------------------------------------------------

  /** What has been read of the token under construction; `at` is the line it started on. */
  datatype Mode =
    | Idle(comment: bool)
    | Word(val: string, at: nat, comment: bool)
    | Quoted(val: string, at: nat, escaped: bool)

  datatype State = State(mode: Mode, line: nat)

  /** The state after reading c. */
  function Step(s: State, c: char): State {
    var line' := if c == '\n' then s.line + 1 else s.line;
    match s.mode
    case Quoted(val, at, escaped) =>
      if !escaped && c == '\\' then State(Quoted(val, at, true), s.line)
      else if !escaped && c == '"' then State(Idle(false), s.line)
      else State(Quoted(val + (if escaped && c != '"' then ['\\', c] else [c]), at, false), line')
    case Idle(comment) =>
      if IsSpace(c) then State(Idle(comment && c != '\n'), line')
      else if comment || c == '#' then State(Idle(true), s.line)
      else if c == '"' then State(Quoted([], s.line, false), s.line)
      else State(Word([c], s.line, false), s.line)
    case Word(val, at, comment) =>
      if c == '\r' then s
      else if IsSpace(c) then State(Idle(false), line')
      else if comment || c == '#' then State(Word(val, at, true), s.line)
      else State(Word(val + [c], at, false), s.line)
  }

  /** The token completed by reading c, if any. */
  function Emit(s: State, c: char): seq<Token> {
    match s.mode
    case Quoted(val, at, escaped) => if !escaped && c == '"' then [Token("", at, val)] else []
    case Idle(_) => []
    case Word(val, at, _) => if c != '\r' && IsSpace(c) then [Token("", at, val)] else []
  }

  /** The token completed by the end of the input, if any. */
  function Finish(s: State): seq<Token> {
    match s.mode
    case Quoted(val, at, _) => if val != [] then [Token("", at, val)] else []
    case Idle(_) => []
    case Word(val, at, _) => if val != [] then [Token("", at, val)] else []
  }

  /** The tokens of input s read from state st. */
  function Run(st: State, s: string): seq<Token>
    decreases s
  {
    if s == [] then Finish(st) else Emit(st, s[0]) + Run(Step(st, s[0]), s[1..])
  }

  const Start := State(Idle(false), 1)

  function SkipBom(input: string): string {
    if input != [] && input[0] == BOM then input[1..] else input
  }

  /** The tokens of a whole input. */
  function Lex(input: string): seq<Token> {
    Run(Start, SkipBom(input))
  }

  lemma {:induction false} RunEnd(st: State)
    ensures Run(st, []) == Finish(st)
  {
  }

  lemma {:induction false} RunCons(st: State, c: char, s: string)
    ensures Run(st, [c] + s) == Emit(st, c) + Run(Step(st, c), s)
  {
    assert ([c] + s)[1..] == s;
  }

  // ---------------------------------------------------------------------------------------------
  // The stateful lexer
  // ---------------------------------------------------------------------------------------------

  /** The machine mode that the lexer's flags stand for. */
  ghost function ModeOf(val: string, comment: bool, quoted: bool, escaped: bool, at: nat): Mode {
    if quoted then Quoted(val, at, escaped) else if val != [] then Word(val, at, comment) else Idle(comment)
  }

  class Scanner {
    const input: string
    var pos: nat
    var line: nat
    var token: Token

    ghost predicate Valid()
      reads this
    {
      pos <= |input|
    }

    /** The tokens that calls of Next have still to produce. */
    ghost function Pending(): seq<Token>
      reads this
      requires Valid()
    {
      Run(State(Idle(false), line), input[pos..])
    }

    /** Loads an input; a leading byte order mark is dropped. */
    constructor (input: string)
      ensures Valid() && Pending() == Lex(input)
    {
      this.input := input;
      pos := if input != [] && input[0] == BOM then 1 else 0;
      line := 1;
      token := Token("", 0, "");
      new;
      assert input[0..] == input;
    }

    /** Loads the next token; false when there is none left. */
    method Next() returns (loaded: bool)
      requires Valid()
      modifies this
      ensures Valid()
      ensures loaded ==> old(pos) < pos
      ensures old(Pending()) == if loaded then [token] + Pending() else []
    {
      hide Run;
      var val: string := [];
      var comment, quoted, escaped := false, false, false;
      ghost var st := State(Idle(false), line);
      while pos < |input|
        invariant Valid() && old(pos) <= pos
        invariant val != [] || quoted ==> old(pos) < pos && token.file == ""
        invariant !quoted ==> !escaped
        invariant st == State(ModeOf(val, comment, quoted, escaped, token.line), line)
        invariant old(Pending()) == Run(st, input[pos..])
      {
        var ch := input[pos];
        assert input[pos..] == [ch] + input[pos + 1..];
        RunCons(st, ch, input[pos + 1..]);
        ghost var was := st;
        st := Step(was, ch);
        pos := pos + 1;

        if quoted {
          if !escaped {
            if ch == '\\' {
              escaped := true;
              continue;
            } else if ch == '"' {
              quoted := false;
              token := token.(text := val);
              return true;
            }
          }
          if ch == '\n' {
            line := line + 1;
          }
          assert val + ['\\', ch] == (val + ['\\']) + [ch];
          if escaped {
            if ch != '"' {
              val := val + ['\\'];
            }
          }
          val := val + [ch];
          escaped := false;
          continue;
        }

        if IsSpace(ch) {
          if ch == '\r' {
            continue;
          }
          if ch == '\n' {
            line := line + 1;
            comment := false;
          }
          if |val| > 0 {
            token := token.(text := val);
            return true;
          }
          continue;
        }

        if ch == '#' {
          comment := true;
        }
        if comment {
          continue;
        }

        if |val| == 0 {
          token := Token("", line, "");
          if ch == '"' {
            quoted := true;
            continue;
          }
        }
        assert [] + [ch] == [ch];
        val := val + [ch];
      }
      assert input[pos..] == [];
      RunEnd(st);
      RunEnd(State(Idle(false), line));
      if |val| > 0 {
        token := token.(text := val);
        return true;
      }
      return false;
    }
  }

  /** All tokens of an input, in order. */
  method AllTokens(input: string) returns (tokens: seq<Token>)
    ensures tokens == Lex(input)
  {
    var l := new Scanner(input);
    tokens := [];
    var more := l.Next();
    while more
      invariant l.Valid()
      invariant Lex(input) == tokens + (if more then [l.token] + l.Pending() else [])
      decreases more, |l.input| - l.pos
    {
      tokens := tokens + [l.token];
      more := l.Next();
    }
  }

}
