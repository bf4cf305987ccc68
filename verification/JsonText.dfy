/**
 Printing the JSON form of a Caddyfile as text (caddyfile/json.go, FromJSON), and what the lexer
 makes of that text: tokens and line numbers that can be read off the tree.
 */
module JsonText {
  import opened Atoms
  import opened Lexer

  /** A decoded JSON value: a string, or an array (a line, or a block of lines). */
  datatype Json = Str(s: string) | Arr(items: seq<Json>)

  datatype EncodedServerBlock = EncodedServerBlock(keys: seq<string>, body: seq<seq<Json>>)

  /** The lines of a body as JSON arrays. */
  function Rows(body: seq<seq<Json>>): seq<Json> {
    seq(|body|, i requires 0 <= i < |body| => Arr(body[i]))
  }

  // ---------------------------------------------------------------------------------------------
  // The printer
  // ---------------------------------------------------------------------------------------------

  function Tabs(n: nat): string {
    seq(n, _ => '\t')
  }

  function JsonToText(j: Json, depth: nat): string
    requires depth >= 1
    decreases j, 1
  {
    match j
    case Str(s) => PrintAtom(s)
    case Arr(items) => LineText(items, depth)
  }

  /** The elements of one line; a nested block is followed by no space. */
  function LineText(items: seq<Json>, depth: nat): string
    requires depth >= 1
    decreases items, 0
  {
    if items == [] then ""
    else match items[0]
         case Str(s) => PrintAtom(s) + (if |items| > 1 then " " else "") + LineText(items[1..], depth)
         case Arr(rows) => "{\n" + RowsText(rows, depth) + Tabs(depth - 1) + "}" + LineText(items[1..], depth)
  }

  function RowsText(rows: seq<Json>, depth: nat): string
    requires depth >= 1
    decreases rows, 0
  {
    if rows == [] then ""
    else Tabs(depth) + JsonToText(rows[0], depth + 1) + "\n" + RowsText(rows[1..], depth)
  }

  function KeysText(keys: seq<string>): string {
    if keys == [] then ""
    else keys[0] + (if |keys| > 1 then ", " else "") + KeysText(keys[1..])
  }

  function BlockText(b: EncodedServerBlock): string {
    KeysText(b.keys) + (" {\n" + RowsText(Rows(b.body), 1) + "}")
  }

  function DocText(doc: seq<EncodedServerBlock>): string {
    if doc == [] then ""
    else BlockText(doc[0]) + (if |doc| > 1 then "\n\n" else "") + DocText(doc[1..])
  }

  // ---------------------------------------------------------------------------------------------
  // The trees that are printed without loss
  // ---------------------------------------------------------------------------------------------

  ghost predicate GoodAtom(s: string) {
    Survives(s) && s != "{" && s != "}"
  }

  /** The elements of a line: strings that survive, and a block of good lines in the last place only. */
  ghost predicate GoodItems(items: seq<Json>)
    decreases items, 0
  {
    items == [] ||
    match items[0]
    case Str(s) => GoodAtom(s) && GoodItems(items[1..])
    case Arr(rows) => |items| == 1 && GoodRows(rows)
  }

  /** A line starts with a string, which is not an import directive. */
  ghost predicate GoodRow(row: Json)
    decreases row, 1
  {
    row.Arr? && row.items != [] && row.items[0].Str? && row.items[0].s != "import" && GoodItems(row.items)
  }

  ghost predicate GoodRows(rows: seq<Json>)
    decreases rows, 0
  {
    rows == [] || (GoodRow(rows[0]) && GoodRows(rows[1..]))
  }

  /** An address printed as it is: a plain word with no comma at its end that is not syntax. */
  ghost predicate GoodKey(k: string) {
    PlainWord(k) && k[|k| - 1] != ',' && k != "{" && k != "import"
  }

  ghost predicate GoodKeys(keys: seq<string>) {
    keys != [] && forall i :: 0 <= i < |keys| ==> GoodKey(keys[i])
  }

  ghost predicate GoodBlock(b: EncodedServerBlock) {
    GoodKeys(b.keys) && GoodRows(Rows(b.body))
  }

  // ---------------------------------------------------------------------------------------------
  // The tokens of a printed tree
  // ---------------------------------------------------------------------------------------------

  function Tok(line: nat, text: string): Token {
    Token("", line, text)
  }

  function ItemBreaks(items: seq<Json>): nat
    decreases items, 0
  {
    if items == [] then 0
    else (match items[0]
          case Str(s) => Breaks(s)
          case Arr(rows) => 1 + RowsBreaks(rows)) + ItemBreaks(items[1..])
  }

  function RowItems(row: Json): seq<Json> {
    if row.Arr? then row.items else [row]
  }

  function RowsBreaks(rows: seq<Json>): nat
    decreases rows, 0
  {
    if rows == [] then 0
    else (match rows[0]
          case Str(s) => Breaks(s)
          case Arr(items) => ItemBreaks(items)) + 1 + RowsBreaks(rows[1..])
  }

  /** The tokens of the elements of a line, the first of which starts on the given line number. */
  function ItemTokens(items: seq<Json>, line: nat): seq<Token>
    decreases items, 0
  {
    if items == [] then []
    else match items[0]
         case Str(s) => [Tok(line, s)] + ItemTokens(items[1..], line + Breaks(s))
         case Arr(rows) =>
           var close := line + 1 + RowsBreaks(rows);
           [Tok(line, "{")] + RowsTokens(rows, line + 1) + [Tok(close, "}")] + ItemTokens(items[1..], close)
  }

  function RowsTokens(rows: seq<Json>, line: nat): seq<Token>
    decreases rows, 0
  {
    if rows == [] then []
    else match rows[0]
         case Str(s) => [Tok(line, s)] + RowsTokens(rows[1..], line + Breaks(s) + 1)
         case Arr(items) => ItemTokens(items, line) + RowsTokens(rows[1..], line + ItemBreaks(items) + 1)
  }

  function KeyTokens(keys: seq<string>, line: nat): seq<Token> {
    if keys == [] then []
    else [Tok(line, keys[0] + (if |keys| > 1 then "," else ""))] + KeyTokens(keys[1..], line)
  }

  function BlockBreaks(b: EncodedServerBlock): nat {
    1 + RowsBreaks(Rows(b.body))
  }

  function BlockTokens(b: EncodedServerBlock, line: nat): seq<Token> {
    KeyTokens(b.keys, line) +
    ([Tok(line, "{")] + RowsTokens(Rows(b.body), line + 1) + [Tok(line + BlockBreaks(b), "}")])
  }

  function DocTokens(doc: seq<EncodedServerBlock>, line: nat): seq<Token> {
    if doc == [] then []
    else BlockTokens(doc[0], line) + DocTokens(doc[1..], line + BlockBreaks(doc[0]) + 2)
  }

  // ---------------------------------------------------------------------------------------------
  // Lexing the printed text
  // ---------------------------------------------------------------------------------------------

  /** The lexer between tokens, on the given line. */
  function At(line: nat): State {
    State(Idle(false), line)
  }

  lemma {:induction false} LexTabs(n: nat, line: nat, rest: string)
    ensures Run(At(line), Tabs(n) + rest) == Run(At(line), rest)
  {
    if n == 0 {
      assert Tabs(n) + rest == rest;
    } else {
      assert Tabs(n) + rest == ['\t'] + (Tabs(n - 1) + rest);
      RunCons(At(line), '\t', Tabs(n - 1) + rest);
      LexTabs(n - 1, line, rest);
    }
  }

  lemma {:induction false} LexNewline(line: nat, rest: string)
    ensures Run(At(line), "\n" + rest) == Run(At(line + 1), rest)
  {
    RunCons(At(line), '\n', rest);
  }

  lemma {:induction false} LexNothing(line: nat)
    ensures Run(At(line), "") == []
  {
  }

  lemma {:induction false} LexSpace(line: nat, rest: string)
    ensures Run(At(line), " " + rest) == Run(At(line), rest)
  {
    RunCons(At(line), ' ', rest);
  }

  lemma {:induction false} LexBrace(brace: string, line: nat, rest: string)
    requires brace == "{" || brace == "}"
    requires Ends(rest)
    ensures Run(At(line), brace + rest) == [Tok(line, brace)] + Run(At(line), rest)
  {
    assert PlainWord(brace);
    WordLexes(brace, line, rest);
  }

  /** The rest of a line, up to and including the line break. */
  lemma {:induction false} LexItems(items: seq<Json>, depth: nat, line: nat, rest: string)
    requires depth >= 1 && GoodItems(items)
    ensures Run(At(line), LineText(items, depth) + ("\n" + rest)) ==
            ItemTokens(items, line) + Run(At(line + ItemBreaks(items) + 1), rest)
    decreases items, 1
  {
    if items == [] {
      assert "" + ("\n" + rest) == "\n" + rest;
      LexNewline(line, rest);
    } else {
      match items[0]
      case Str(s) => LexItemsAtom(items, depth, line, rest);
      case Arr(rows) => LexItemsBlock(items, depth, line, rest);
    }
  }

  lemma {:induction false} Regroup(a: string, b: string, c: string, d: string)
    ensures a + b + c + d == a + (b + (c + d))
  {
  }

  lemma {:induction false} AtomLineText(items: seq<Json>, depth: nat, rest: string)
    requires depth >= 1 && items != [] && items[0].Str?
    ensures LineText(items, depth) + rest ==
            PrintAtom(items[0].s) + (if |items| > 1 then " " + (LineText(items[1..], depth) + rest) else rest)
  {
    hide PrintAtom;
    var a := PrintAtom(items[0].s);
    if |items| == 1 {
      assert items[1..] == [] && LineText(items, depth) == a + "" + "";
    } else {
      Regroup(a, " ", LineText(items[1..], depth), rest);
    }
  }

  lemma {:induction false} LexItemsAtom(items: seq<Json>, depth: nat, line: nat, rest: string)
    requires depth >= 1 && items != [] && items[0].Str? && GoodItems(items)
    ensures Run(At(line), LineText(items, depth) + ("\n" + rest)) ==
            ItemTokens(items, line) + Run(At(line + ItemBreaks(items) + 1), rest)
    decreases items, 0
  {
    hide Run, PrintAtom, Survives, LineText, GoodItems, GoodAtom, ItemTokens, ItemBreaks, Breaks;
    GoodAtomItem(items);
    var s := items[0].s;
    var tail := LineText(items[1..], depth) + ("\n" + rest);
    var line' := line + Breaks(s);
    AtomLineText(items, depth, "\n" + rest);
    if |items| > 1 {
      AtomLexes(s, line, " " + tail);
      LexSpace(line', tail);
    } else {
      EmptyLineText(items[1..], depth, "\n" + rest);
      AtomLexes(s, line, tail);
    }
    LexItems(items[1..], depth, line', rest);
    AtomItemTokens(items, line);
  }

  lemma {:induction false} GoodAtomItem(items: seq<Json>)
    requires items != [] && items[0].Str? && GoodItems(items)
    ensures Survives(items[0].s) && GoodItems(items[1..])
  {
  }

  lemma {:induction false} AtomItemTokens(items: seq<Json>, line: nat)
    requires items != [] && items[0].Str?
    ensures ItemTokens(items, line) == [Tok(line, items[0].s)] + ItemTokens(items[1..], line + Breaks(items[0].s))
    ensures ItemBreaks(items) == Breaks(items[0].s) + ItemBreaks(items[1..])
  {
  }

  lemma {:induction false} EmptyLineText(items: seq<Json>, depth: nat, rest: string)
    requires depth >= 1 && |items| == 0
    ensures LineText(items, depth) + rest == rest
  {
  }

  lemma {:induction false} BlockLineText(items: seq<Json>, depth: nat, rest: string)
    requires depth >= 1 && |items| == 1 && items[0].Arr?
    ensures LineText(items, depth) + rest ==
            "{" + ("\n" + (RowsText(items[0].items, depth) + (Tabs(depth - 1) + ("}" + rest))))
  {
    var r, t := RowsText(items[0].items, depth), Tabs(depth - 1);
    assert items[1..] == [] && LineText(items, depth) == "{\n" + r + t + "}" + "";
    assert "{\n" + r + t + "}" + "" + rest == "{\n" + (r + (t + ("}" + rest)));
    assert "{\n" + (r + (t + ("}" + rest))) == "{" + ("\n" + (r + (t + ("}" + rest))));
  }

  lemma {:induction false} LexItemsBlock(items: seq<Json>, depth: nat, line: nat, rest: string)
    requires depth >= 1 && items != [] && items[0].Arr? && GoodItems(items)
    ensures Run(At(line), LineText(items, depth) + ("\n" + rest)) ==
            ItemTokens(items, line) + Run(At(line + ItemBreaks(items) + 1), rest)
    decreases items, 0
  {
    hide Run, LineText, RowsText;
    assert GoodRows(items[0].items);
    hide GoodRows, GoodItems, RowsBreaks, ItemBreaks, ItemTokens, RowsTokens, Tabs;
    var rows := items[0].items;
    var close := line + 1 + RowsBreaks(rows);
    var last := "}" + ("\n" + rest);
    var inner := RowsText(rows, depth) + (Tabs(depth - 1) + last);
    BlockLineText(items, depth, "\n" + rest);
    LexBrace("{", line, "\n" + inner);
    LexNewline(line, inner);
    LexRows(rows, depth, line + 1, Tabs(depth - 1) + last);
    LexTabs(depth - 1, close, last);
    LexBrace("}", close, "\n" + rest);
    LexNewline(close, rest);
    BlockItemTokens(items, line);
  }

  lemma {:induction false} BlockItemTokens(items: seq<Json>, line: nat)
    requires |items| == 1 && items[0].Arr?
    ensures var close := line + 1 + RowsBreaks(items[0].items);
            && ItemTokens(items, line) == [Tok(line, "{")] + (RowsTokens(items[0].items, line + 1) + [Tok(close, "}")])
            && ItemBreaks(items) == 1 + RowsBreaks(items[0].items)
  {
    assert items[1..] == [];
  }

  lemma {:induction false} FirstRowText(rows: seq<Json>, depth: nat, rest: string)
    requires depth >= 1 && rows != [] && rows[0].Arr?
    ensures RowsText(rows, depth) + rest ==
            Tabs(depth) + (LineText(rows[0].items, depth + 1) + ("\n" + (RowsText(rows[1..], depth) + rest)))
  {
    var t, l, r := Tabs(depth), LineText(rows[0].items, depth + 1), RowsText(rows[1..], depth);
    assert RowsText(rows, depth) == t + l + "\n" + r;
    hide RowsText, LineText;
    Regroup(t + l, "\n", r, rest);
    Regroup(t, l, "\n" + (r + rest), "");
  }

  lemma {:induction false} FirstRowTokens(rows: seq<Json>, line: nat)
    requires rows != [] && rows[0].Arr?
    ensures var items := rows[0].items;
            && RowsTokens(rows, line) == ItemTokens(items, line) + RowsTokens(rows[1..], line + ItemBreaks(items) + 1)
            && RowsBreaks(rows) == ItemBreaks(items) + 1 + RowsBreaks(rows[1..])
  {
  }

  lemma {:induction false} LexRows(rows: seq<Json>, depth: nat, line: nat, rest: string)
    requires depth >= 1 && GoodRows(rows)
    ensures Run(At(line), RowsText(rows, depth) + rest) ==
            RowsTokens(rows, line) + Run(At(line + RowsBreaks(rows)), rest)
    decreases rows, 1
  {
    hide Run;
    if rows == [] {
      assert RowsText(rows, depth) + rest == rest;
    } else {
      LexFirstRow(rows, depth, line, rest);
    }
  }

  lemma {:induction false} LexFirstRow(rows: seq<Json>, depth: nat, line: nat, rest: string)
    requires depth >= 1 && rows != [] && GoodRow(rows[0]) && GoodRows(rows[1..])
    ensures Run(At(line), RowsText(rows, depth) + rest) ==
            RowsTokens(rows, line) + Run(At(line + RowsBreaks(rows)), rest)
    decreases rows, 0
  {
    hide Run, GoodRows, RowsText, LineText, ItemTokens, RowsTokens, ItemBreaks, RowsBreaks, GoodItems, Tabs;
    var items := rows[0].items;
    var tail := RowsText(rows[1..], depth) + rest;
    FirstRowTokens(rows, line);
    FirstRowText(rows, depth, rest);
    LexTabs(depth, line, LineText(items, depth + 1) + ("\n" + tail));
    LexItems(items, depth + 1, line, tail);
    LexRows(rows[1..], depth, line + ItemBreaks(items) + 1, rest);
  }

  lemma {:induction false} LexKeys(keys: seq<string>, line: nat, rest: string)
    requires GoodKeys(keys) && Ends(rest)
    ensures Run(At(line), KeysText(keys) + rest) == KeyTokens(keys, line) + Run(At(line), rest)
    decreases keys
  {
    hide Run;
    var k := keys[0];
    if |keys| == 1 {
      assert keys[1..] == [];
      assert KeysText(keys) + rest == k + rest;
      WordLexes(k, line, rest);
      assert k + "" == k;
    } else {
      var tail := KeysText(keys[1..]) + rest;
      assert KeysText(keys) + rest == (k + ",") + (" " + tail);
      WordLexes(k + ",", line, " " + tail);
      LexSpace(line, tail);
      LexKeys(keys[1..], line, rest);
    }
  }

  lemma {:induction false} BlockTextParts(b: EncodedServerBlock, rest: string)
    ensures BlockText(b) + rest ==
            KeysText(b.keys) + (" " + ("{" + ("\n" + (RowsText(Rows(b.body), 1) + ("}" + rest)))))
  {
    var k, r := KeysText(b.keys), RowsText(Rows(b.body), 1);
    hide KeysText, RowsText;
    var body := r + ("}" + rest);
    assert " {\n" + body == " " + ("{" + ("\n" + body));
    assert k + (" {\n" + r + "}") + rest == k + (" {\n" + body);
  }

  lemma {:induction false} LexBlock(b: EncodedServerBlock, line: nat, rest: string)
    requires GoodBlock(b) && Ends(rest)
    ensures Run(At(line), BlockText(b) + rest) == BlockTokens(b, line) + Run(At(line + BlockBreaks(b)), rest)
  {
    hide Run, BlockText, KeysText, RowsText, GoodRows, GoodKeys;
    var rows := Rows(b.body);
    var last := "}" + rest;
    var inner := RowsText(rows, 1) + last;
    var open := " " + ("{" + ("\n" + inner));
    BlockTextParts(b, rest);
    LexKeys(b.keys, line, open);
    LexSpace(line, "{" + ("\n" + inner));
    LexBrace("{", line, "\n" + inner);
    LexNewline(line, inner);
    LexRows(rows, 1, line + 1, last);
    LexBrace("}", line + BlockBreaks(b), rest);
  }

  lemma {:induction false} LexDocFrom(doc: seq<EncodedServerBlock>, line: nat)
    requires forall i :: 0 <= i < |doc| ==> GoodBlock(doc[i])
    ensures Run(At(line), DocText(doc)) == DocTokens(doc, line)
    decreases |doc|
  {
    hide Run, BlockText, BlockTokens, BlockBreaks, GoodBlock;
    LexNothing(line);
    if doc != [] {
      var b := doc[0];
      var line' := line + BlockBreaks(b);
      if |doc| == 1 {
        assert doc[1..] == [];
        assert DocText(doc) == BlockText(b) + "";
        LexBlock(b, line, "");
        LexNothing(line');
      } else {
        var rest := DocText(doc[1..]);
        Regroup(BlockText(b), "\n", "\n", rest);
        assert BlockText(b) + "\n\n" == BlockText(b) + "\n" + "\n";
        LexBlock(b, line, "\n" + ("\n" + rest));
        LexNewline(line', "\n" + rest);
        LexNewline(line' + 1, rest);
      }
      LexDocFrom(doc[1..], line' + 2);
    }
  }

  /** A byte order mark at the very start of the printed text would be dropped by the lexer. */
  ghost predicate NoLeadingBom(doc: seq<EncodedServerBlock>) {
    doc == [] || doc[0].keys == [] || doc[0].keys[0] == [] || doc[0].keys[0][0] != BOM
  }

  /** The tokens of a printed document are the tokens of its tree, line numbers included. */
  lemma {:induction false} LexDoc(doc: seq<EncodedServerBlock>)
    requires NoLeadingBom(doc) && forall i :: 0 <= i < |doc| ==> GoodBlock(doc[i])
    ensures Lex(DocText(doc)) == DocTokens(doc, 1)
  {
    if doc != [] {
      assert GoodKey(doc[0].keys[0]);
      assert DocText(doc)[0] == doc[0].keys[0][0];
    }
    LexDocFrom(doc, 1);
  }
  // ---------------------------------------------------------------------------------------------
  // The layout
  // ---------------------------------------------------------------------------------------------

  /** Two keys, a directive with an argument and a block. */
  const Nested: EncodedServerBlock := EncodedServerBlock(["a", "b"], [[Str("d"), Str("x"), Arr([Arr([Str("e")])])]])

  lemma {:induction false} NestedRows()
    ensures RowsText([Arr([Str("e")])], 2) == "\t\te\n"
  {
    hide PrintAtom;
    PlainAtom("e");
    var line := [Str("e")];
    assert line[1..] == [] && [Arr(line)][1..] == [];
    assert LineText(line, 3) == "e";
    assert Tabs(2) == "\t\t";
  }

  lemma {:induction false} NestedLine()
    ensures LineText([Str("d"), Str("x"), Arr([Arr([Str("e")])])], 2) == "d x {\n\t\te\n\t}"
  {
    hide PrintAtom, RowsText;
    PlainAtom("d");
    PlainAtom("x");
    NestedRows();
    var rows := [Arr([Str("e")])];
    var line := [Str("d"), Str("x"), Arr(rows)];
    assert line[1..] == [Str("x"), Arr(rows)] && line[1..][1..] == [Arr(rows)] && [Arr(rows)][1..] == [];
    assert Tabs(1) == "\t";
    assert LineText([Arr(rows)], 2) == "{\n\t\te\n\t}";
    assert LineText([Str("x"), Arr(rows)], 2) == "x {\n\t\te\n\t}";
  }

  lemma {:induction false} NestedBody()
    ensures RowsText(Rows(Nested.body), 1) == "\td x {\n\t\te\n\t}\n"
  {
    hide LineText, PrintAtom;
    var line := Nested.body[0];
    NestedLine();
    assert Rows(Nested.body) == [Arr(line)] && [Arr(line)][1..] == [];
    assert Tabs(1) == "\t";
  }

  lemma {:induction false} NestedKeys()
    ensures KeysText(Nested.keys) == "a, b"
  {
    assert Nested.keys[1..] == ["b"] && ["b"][1..] == [];
    assert KeysText(["b"]) == "b";
  }

  /** The layout of a printed document, by an example: a tab for each block around a line. */
  lemma {:induction false} NestedText()
    ensures DocText([Nested]) == "a, b {\n\td x {\n\t\te\n\t}\n}"
  {
    hide RowsText, KeysText;
    NestedBody();
    NestedKeys();
    assert [Nested][1..] == [];
  }
}
