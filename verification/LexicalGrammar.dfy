/**
 The lexical grammar of the Caddyfile language, without a machine: a text is a run of blanks, comments,
 words and quoted strings, and its tokens are what those say (caddyfile/lexer.go:73-150).
 */
module LexicalGrammar {
  import opened Lexer
  import opened Sequences

  /** What stands between quotes: a character by itself, or a backslash and one. */
  datatype Item = Plain(c: char) | Escape(c: char)

  /** A part of a text, each with the characters it is written in but for its quotes and its hash sign. */
  datatype Part =
    | Blank(c: char)
    | Comment(text: string)
    | Bare(text: string)
    | Quote(items: seq<Item>)
    | OpenQuote(items: seq<Item>, backslash: bool)

  // ---------------------------------------------------------------------------------------------
  // How parts are written and what they say
  // ---------------------------------------------------------------------------------------------

  function ItemText(i: Item): string {
    if i.Plain? then [i.c] else ['\\', i.c]
  }

  /** A backslash is taken away in front of a quote, and stays in front of anything else. */
  function ItemMeaning(i: Item): string {
    if i.Escape? && i.c != '"' then ['\\', i.c] else [i.c]
  }

  function ItemsText(items: seq<Item>): string {
    if items == [] then [] else ItemText(items[0]) + ItemsText(items[1..])
  }

  function ItemsMeaning(items: seq<Item>): string {
    if items == [] then [] else ItemMeaning(items[0]) + ItemsMeaning(items[1..])
  }

  /** What a word says: its characters up to the first hash sign, without carriage returns. */
  function WordMeaning(w: string): string {
    if w == [] || w[0] == '#' then [] else (if w[0] == '\r' then [] else [w[0]]) + WordMeaning(w[1..])
  }

  function PartText(p: Part): string {
    match p
    case Blank(c) => [c]
    case Comment(text) => ['#'] + text
    case Bare(text) => text
    case Quote(items) => ['"'] + (ItemsText(items) + ['"'])
    case OpenQuote(items, backslash) => ['"'] + (ItemsText(items) + if backslash then ['\\'] else [])
  }

  /** The token of a part that starts on a line. A quote that is never closed says nothing if it is empty. */
  function PartTokens(p: Part, line: nat): seq<Token> {
    match p
    case Blank(_) => []
    case Comment(_) => []
    case Bare(text) => [Token("", line, WordMeaning(text))]
    case Quote(items) => [Token("", line, ItemsMeaning(items))]
    case OpenQuote(items, _) => if items == [] then [] else [Token("", line, ItemsMeaning(items))]
  }

  function PartsText(parts: seq<Part>): string {
    if parts == [] then [] else PartText(parts[0]) + PartsText(parts[1..])
  }

  /** The tokens of parts in a row; a line break counts wherever it stands. */
  function PartsTokens(parts: seq<Part>, line: nat): seq<Token> {
    if parts == [] then []
    else PartTokens(parts[0], line) + PartsTokens(parts[1..], line + Breaks(PartText(parts[0])))
  }

  // ---------------------------------------------------------------------------------------------
  // Which parts can stand where
  // ---------------------------------------------------------------------------------------------

  /** White space ends a word, unless it is a carriage return. */
  predicate EndsWord(c: char) {
    IsSpace(c) && c != '\r'
  }

  predicate Itemized(items: seq<Item>) {
    forall i :: i in items && i.Plain? ==> i.c != '"' && i.c != '\\'
  }

  predicate WellFormed(p: Part) {
    match p
    case Blank(c) => IsSpace(c)
    case Comment(text) => '\n' !in text
    case Bare(text) =>
      && text != [] && !IsSpace(text[0]) && text[0] != '#' && text[0] != '"'
      && (forall c :: c in text ==> !EndsWord(c))
    case Quote(items) => Itemized(items)
    case OpenQuote(items, _) => Itemized(items)
  }

  /** A comment goes on to the end of its line, a word to white space, an open quote to the end of all. */
  predicate CanFollow(p: Part, next: string) {
    match p
    case Blank(_) => true
    case Comment(_) => next == [] || next[0] == '\n'
    case Bare(_) => next == [] || EndsWord(next[0])
    case Quote(_) => true
    case OpenQuote(_, _) => next == []
  }

  predicate WellCut(parts: seq<Part>) {
    parts == [] || (WellFormed(parts[0]) && CanFollow(parts[0], PartsText(parts[1..])) && WellCut(parts[1..]))
  }

  // ---------------------------------------------------------------------------------------------
  // Part by part
  // ---------------------------------------------------------------------------------------------

  /** Inside a comment nothing counts. */
  lemma {:induction false} CommentRuns(line: nat, text: string, rest: string)
    requires '\n' !in text
    ensures Run(State(Idle(true), line), text + rest) == Run(State(Idle(true), line), rest)
  {
    hide Run;
    if text == [] {
      assert text + rest == rest;
    } else {
      assert text + rest == [text[0]] + (text[1..] + rest);
      RunCons(State(Idle(true), line), text[0], text[1..] + rest);
      CommentRuns(line, text[1..], rest);
    }
  }

  /** The end of a line or of the input ends a comment, and is read as if there had been none. */
  lemma {:induction false} CommentEnds(line: nat, rest: string)
    requires rest == [] || rest[0] == '\n'
    ensures Run(State(Idle(true), line), rest) == Run(State(Idle(false), line), rest)
  {
  }

  lemma {:induction false} WordRuns(line: nat, val: string, at: nat, comment: bool, w: string, rest: string)
    requires forall c :: c in w ==> !EndsWord(c)
    ensures Run(State(Word(val, at, comment), line), w + rest) ==
            Run(State(Word(if comment then val else val + WordMeaning(w), at, comment || '#' in w), line), rest)
    decreases |w|
  {
    hide Run;
    var st := State(Word(val, at, comment), line);
    if w == [] {
      assert w + rest == rest && val + [] == val;
    } else {
      assert w + rest == [w[0]] + (w[1..] + rest);
      assert w[0] in w && w == [w[0]] + w[1..];
      RunCons(st, w[0], w[1..] + rest);
      var next := Step(st, w[0]).mode;
      WordRuns(line, next.val, at, next.comment, w[1..], rest);
      ConcatAssociates(val, if w[0] == '\r' then [] else [w[0]], WordMeaning(w[1..]));
      assert val + [] == val;
    }
  }

  /** What ends a word is read as if there had been none. */
  lemma {:induction false} WordEnds(line: nat, val: string, at: nat, comment: bool, rest: string)
    requires val != [] && (rest == [] || EndsWord(rest[0]))
    ensures Run(State(Word(val, at, comment), line), rest) ==
            [Token("", at, val)] + Run(State(Idle(false), line), rest)
  {
  }

  lemma {:induction false} QuoteRuns(line: nat, val: string, at: nat, items: seq<Item>, rest: string)
    requires Itemized(items)
    ensures Run(State(Quoted(val, at, false), line), ItemsText(items) + rest) ==
            Run(State(Quoted(val + ItemsMeaning(items), at, false), line + Breaks(ItemsText(items))), rest)
    decreases |items|
  {
    hide Run;
    if items == [] {
      assert ItemsText(items) + rest == rest && val + [] == val;
    } else {
      var more := ItemsText(items[1..]);
      ConcatAssociates(ItemText(items[0]), more, rest);
      assert items[0] in items;
      ItemRuns(line, val, at, items[0], more + rest);
      QuoteRuns(line + Breaks(ItemText(items[0])), val + ItemMeaning(items[0]), at, items[1..], rest);
      ConcatAssociates(val, ItemMeaning(items[0]), ItemsMeaning(items[1..]));
      BreaksConcat(ItemText(items[0]), more);
    }
  }

  lemma {:induction false} ItemRuns(line: nat, val: string, at: nat, i: Item, rest: string)
    requires i.Plain? ==> i.c != '"' && i.c != '\\'
    ensures Run(State(Quoted(val, at, false), line), ItemText(i) + rest) ==
            Run(State(Quoted(val + ItemMeaning(i), at, false), line + Breaks(ItemText(i))), rest)
  {
    hide Run;
    var st := State(Quoted(val, at, false), line);
    assert [i.c][1..] == [];
    if i.Plain? {
      RunCons(st, i.c, rest);
    } else {
      assert ['\\', i.c] + rest == ['\\'] + ([i.c] + rest);
      assert ['\\', i.c][1..] == [i.c];
      RunCons(st, '\\', [i.c] + rest);
      RunCons(Step(st, '\\'), i.c, rest);
    }
  }

  /** An open quote ends with the input; a backslash at the very end is dropped. */
  lemma {:induction false} OpenQuoteRuns(line: nat, items: seq<Item>, backslash: bool)
    requires Itemized(items)
    ensures Run(State(Idle(false), line), PartText(OpenQuote(items, backslash))) ==
            PartTokens(OpenQuote(items, backslash), line)
  {
    hide Run, Itemized, Step, ItemsText, ItemsMeaning;
    var inner, val := ItemsText(items), ItemsMeaning(items);
    var end: string := if backslash then ['\\'] else [];
    QuoteOpens(line, inner + end);
    QuoteRuns(line, [], line, items, end);
    assert [] + val == val;
    InputEnds(State(Quoted(val, line, false), line + Breaks(inner)), backslash);
    SayNothing(items);
  }

  lemma {:induction false} QuoteOpens(line: nat, rest: string)
    ensures Run(State(Idle(false), line), ['"'] + rest) == Run(State(Quoted([], line, false), line), rest)
  {
    hide Run;
    RunCons(State(Idle(false), line), '"', rest);
  }

  lemma {:induction false} InputEnds(st: State, backslash: bool)
    requires st.mode.Quoted? && !st.mode.escaped
    ensures Run(st, if backslash then ['\\'] else []) ==
            if st.mode.val != [] then [Token("", st.mode.at, st.mode.val)] else []
  {
    hide Run;
    RunEnd(st);
    RunEnd(Step(st, '\\'));
    assert ['\\'] + [] == ['\\'];
    RunCons(st, '\\', []);
  }

  lemma {:induction false} SayNothing(items: seq<Item>)
    ensures ItemsMeaning(items) == [] <==> items == []
  {
  }

  lemma {:induction false} OpenQuoteRunsOff(p: Part, line: nat, rest: string)
    requires p.OpenQuote? && Itemized(p.items) && rest == []
    ensures Run(State(Idle(false), line), PartText(p) + rest) ==
            PartTokens(p, line) + Run(State(Idle(false), line + Breaks(PartText(p))), rest)
  {
    hide Run, Itemized, PartText, PartTokens;
    assert PartText(p) + rest == PartText(p);
    OpenQuoteRuns(line, p.items, p.backslash);
    RunEnd(State(Idle(false), line + Breaks(PartText(p))));
    assert PartTokens(p, line) + [] == PartTokens(p, line);
  }

  lemma {:induction false} OneLine(w: string)
    requires forall c :: c in w ==> !EndsWord(c)
    ensures Breaks(w) == 0
  {
    forall i | 0 <= i < |w|
      ensures w[i] != '\n'
    {
      assert w[i] in w;
    }
    NoBreaks(w);
  }

  lemma {:induction false} BareRuns(text: string, line: nat, rest: string)
    requires WellFormed(Bare(text)) && CanFollow(Bare(text), rest)
    ensures Run(State(Idle(false), line), text + rest) ==
            [Token("", line, WordMeaning(text))] + Run(State(Idle(false), line), rest)
  {
    hide Run;
    var w := text[1..];
    assert text + rest == [text[0]] + (w + rest);
    RunCons(State(Idle(false), line), text[0], w + rest);
    WordRuns(line, [text[0]], line, false, w, rest);
    WordEnds(line, [text[0]] + WordMeaning(w), line, '#' in w, rest);
  }

  lemma {:induction false} QuoteRunsOff(items: seq<Item>, line: nat, rest: string)
    requires Itemized(items)
    ensures Run(State(Idle(false), line), PartText(Quote(items)) + rest) ==
            [Token("", line, ItemsMeaning(items))] + Run(State(Idle(false), line + Breaks(ItemsText(items))), rest)
    ensures Breaks(PartText(Quote(items))) == Breaks(ItemsText(items))
  {
    hide Run, Itemized, ItemsText, ItemsMeaning;
    var inner := ItemsText(items);
    assert PartText(Quote(items)) + rest == ['"'] + (inner + (['"'] + rest));
    QuoteOpens(line, inner + (['"'] + rest));
    QuoteRuns(line, [], line, items, ['"'] + rest);
    assert [] + ItemsMeaning(items) == ItemsMeaning(items);
    RunCons(State(Quoted(ItemsMeaning(items), line, false), line + Breaks(inner)), '"', rest);
    BreaksConcat(['"'], inner + ['"']);
    BreaksConcat(inner, ['"']);
    NoBreaks(['"']);
  }

  lemma {:induction false} CommentRunsOff(text: string, line: nat, rest: string)
    requires '\n' !in text && (rest == [] || rest[0] == '\n')
    ensures Run(State(Idle(false), line), PartText(Comment(text)) + rest) == Run(State(Idle(false), line), rest)
    ensures Breaks(PartText(Comment(text))) == 0
  {
    hide Run;
    ConcatAssociates(['#'], text, rest);
    RunCons(State(Idle(false), line), '#', text + rest);
    CommentRuns(line, text, rest);
    CommentEnds(line, rest);
    NoBreaks(['#'] + text);
  }

  /** One part and what can follow it. */
  lemma {:induction false} PartRuns(p: Part, line: nat, rest: string)
    requires WellFormed(p) && CanFollow(p, rest)
    ensures Run(State(Idle(false), line), PartText(p) + rest) ==
            PartTokens(p, line) + Run(State(Idle(false), line + Breaks(PartText(p))), rest)
  {
    hide Run, ItemsText, ItemsMeaning, WordMeaning, Itemized, EndsWord;
    match p
    case Blank(c) =>
      RunCons(State(Idle(false), line), c, rest);
      assert [c][1..] == [];
    case Comment(text) => CommentRunsOff(text, line, rest);
    case Bare(text) =>
      BareRuns(text, line, rest);
      OneLine(text);
    case Quote(items) => QuoteRunsOff(items, line, rest);
    case OpenQuote(items, backslash) => OpenQuoteRunsOff(p, line, rest);
  }

  // ---------------------------------------------------------------------------------------------
  // Whole texts
  // ---------------------------------------------------------------------------------------------

  /** The tokens of a text are those of its parts, however it is cut. */
  lemma {:induction false} PartsRun(parts: seq<Part>, line: nat)
    requires WellCut(parts)
    ensures Run(State(Idle(false), line), PartsText(parts)) == PartsTokens(parts, line)
    decreases |parts|
  {
    hide Run, PartText, PartTokens, WellFormed, CanFollow;
    if parts == [] {
      RunEnd(State(Idle(false), line));
    } else {
      PartRuns(parts[0], line, PartsText(parts[1..]));
      PartsRun(parts[1..], line + Breaks(PartText(parts[0])));
    }
  }

  /** A comment takes everything up to the end of its line, or of the input, and nothing more. */
  lemma {:induction false} CommentSkipped(line: nat, text: string, rest: string)
    requires '\n' !in text
    ensures Run(State(Idle(false), line), "#" + text + "\n" + rest) == Run(State(Idle(false), line + 1), rest)
    ensures Run(State(Idle(false), line), "#" + text) == []
  {
    hide Run;
    assert "#" + text + "\n" + rest == (['#'] + text) + (['\n'] + rest);
    CommentRunsOff(text, line, ['\n'] + rest);
    CommentRunsOff(text, line, []);
    RunCons(State(Idle(false), line), '\n', rest);
    RunEnd(State(Idle(false), line));
    assert "#" + text == (['#'] + text) + [];
  }

  /** A comment begun inside a word ends with the word. */
  lemma {:induction false} CommentInWord(line: nat, word: string, text: string, end: char, rest: string)
    requires WellFormed(Bare(word)) && '#' !in word && '\r' !in word && EndsWord(end)
    requires forall c :: c in text ==> !EndsWord(c)
    ensures Run(State(Idle(false), line), word + "#" + text + [end] + rest) ==
            [Token("", line, word)] + Run(State(Idle(false), line), [end] + rest)
  {
    hide Run;
    var w := word + ("#" + text);
    assert word + "#" + text + [end] + rest == w + ([end] + rest);
    BareRuns(w, line, [end] + rest);
    WordBefore(word, text);
  }

  lemma {:induction false} WordBefore(word: string, text: string)
    requires '#' !in word && '\r' !in word
    ensures WordMeaning(word + ("#" + text)) == word
    decreases |word|
  {
    if word != [] {
      assert (word + ("#" + text))[1..] == word[1..] + ("#" + text) && word[0] in word;
      WordBefore(word[1..], text);
    } else {
      assert word + ("#" + text) == "#" + text;
    }
  }

  /** The characters of s before the first that passes a test. */
  function Before(s: string, stop: char -> bool): (r: string)
    ensures |r| <= |s| && s[..|r|] == r && (forall c :: c in r ==> !stop(c)) && (|r| < |s| ==> stop(s[|r|]))
  {
    if s == [] || stop(s[0]) then [] else
    var r := Before(s[1..], stop);
    assert s[..|r| + 1] == [s[0]] + s[1..][..|r|];
    [s[0]] + r
  }

  /** What a text begun by a quote comes to: items, and then a quote, nothing or a backslash. */
  lemma {:induction false} QuoteCut(s: string) returns (items: seq<Item>, rest: string)
    ensures Itemized(items) && s == ItemsText(items) + rest
    ensures rest == [] || rest == ['\\'] || rest[0] == '"'
    decreases |s|
  {
    if s == [] || s == ['\\'] || s[0] == '"' {
      items, rest := [], s;
    } else {
      var i := if s[0] == '\\' then Escape(s[1]) else Plain(s[0]);
      var more := s[|ItemText(i)|..];
      assert s == ItemText(i) + more;
      items, rest := QuoteCut(more);
      ConcatAssociates(ItemText(i), ItemsText(items), rest);
      var all := [i] + items;
      assert all[0] == i && all[1..] == items;
      items := all;
    }
  }

  lemma {:induction false} FirstQuote(s: string) returns (p: Part, rest: string)
    requires s != [] && s[0] == '"'
    ensures WellFormed(p) && s == PartText(p) + rest && CanFollow(p, rest) && |rest| < |s|
  {
    hide ItemsText, Itemized;
    var more := s[1..];
    assert s == ['"'] + more;
    var items, next := QuoteCut(more);
    if next == [] || next == ['\\'] {
      p, rest := OpenQuote(items, next != []), [];
      assert PartText(p) == s && s + [] == s;
    } else {
      p, rest := Quote(items), next[1..];
      assert next == ['"'] + rest;
      assert PartText(p) + rest == ['"'] + (ItemsText(items) + (['"'] + rest));
    }
  }

  /** The first part of a text, and the text after it. */
  lemma {:induction false} FirstPart(s: string) returns (p: Part, rest: string)
    requires s != []
    ensures WellFormed(p) && s == PartText(p) + rest && CanFollow(p, rest) && |rest| < |s|
  {
    hide ItemsText, Itemized;
    if IsSpace(s[0]) {
      p, rest := Blank(s[0]), s[1..];
    } else if s[0] == '#' {
      var text := Before(s[1..], d => d == '\n');
      p, rest := Comment(text), s[1 + |text|..];
    } else if s[0] == '"' {
      p, rest := FirstQuote(s);
    } else {
      var text := Before(s, d => EndsWord(d));
      p, rest := Bare(text), s[|text|..];
    }
  }

  /** Every text can be cut into parts. */
  lemma {:induction false} CutUp(s: string) returns (parts: seq<Part>)
    ensures WellCut(parts) && PartsText(parts) == s
    decreases |s|
  {
    hide WellFormed, CanFollow, PartText;
    parts := [];
    if s != [] {
      var p, rest := FirstPart(s);
      var more := CutUp(rest);
      parts := [p] + more;
      assert parts[0] == p && parts[1..] == more;
    }
  }

  /**
   The tokens of every input are those of its parts, a byte order mark at its start apart; and it has
   parts.
   */
  lemma {:induction false} LexIsGrammar(input: string)
    ensures forall parts :: WellCut(parts) && PartsText(parts) == SkipBom(input) ==> Lex(input) == PartsTokens(parts, 1)
    ensures exists parts :: WellCut(parts) && PartsText(parts) == SkipBom(input)
  {
    hide Run, WellCut, PartsText, PartsTokens;
    var some := CutUp(SkipBom(input));
    forall parts | WellCut(parts) && PartsText(parts) == SkipBom(input)
      ensures Lex(input) == PartsTokens(parts, 1)
    {
      PartsRun(parts, 1);
    }
  }

  /** A byte order mark at the start changes nothing. */
  lemma {:induction false} MarkDropped(input: string)
    requires input == [] || input[0] != BOM
    ensures Lex([BOM] + input) == Lex(input)
  {
    assert ([BOM] + input)[1..] == input;
  }
}
