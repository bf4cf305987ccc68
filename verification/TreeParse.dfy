/**
 Parsing the tokens of a printed tree: every line of a body becomes one segment, every server
 block one block. Together with the lexer's reading of the text this is one half of the round trip.
 */
module TreeParse {
  import opened Atoms
  import opened Grammar
  import opened JsonText
  import opened Lexer
  import opened Wrappers

  // ---------------------------------------------------------------------------------------------
  // What substitution must leave alone
  // ---------------------------------------------------------------------------------------------

  ghost predicate Fixed(ctx: Context, s: string) {
    Subst(ctx, s) == s
  }

  ghost predicate FixedItems(ctx: Context, items: seq<Json>)
    decreases items, 0
  {
    items == [] ||
    ((match items[0]
      case Str(s) => Fixed(ctx, s)
      case Arr(rows) => FixedRows(ctx, rows)) && FixedItems(ctx, items[1..]))
  }

  ghost predicate FixedRows(ctx: Context, rows: seq<Json>)
    decreases rows, 0
  {
    rows == [] ||
    ((match rows[0]
      case Str(s) => Fixed(ctx, s)
      case Arr(items) => FixedItems(ctx, items)) && FixedRows(ctx, rows[1..]))
  }

  ghost predicate FixedKeys(ctx: Context, keys: seq<string>) {
    forall i :: 0 <= i < |keys| ==> Fixed(ctx, keys[i]) && Fixed(ctx, keys[i] + ",")
  }

  ghost predicate BracesFixed(ctx: Context) {
    Fixed(ctx, "{") && Fixed(ctx, "}")
  }

  // ---------------------------------------------------------------------------------------------
  // Directives
  // ---------------------------------------------------------------------------------------------

  /** t ends on the given line of the file. */
  predicate EndsOn(t: Token, line: nat) {
    t.file == "" && t.line + Breaks(t.text) == line
  }

  /** From nesting n to nesting n', the scan takes all of ts and then stands on `last`. */
  ghost predicate Takes(ctx: Context, snips: Snippets, s: Scan, n: nat, ts: seq<Token>, last: Token, rest: seq<Token>,
                        n': nat)
  {
    ScanDirective(ctx, snips, s, n) ==
    ScanDirective(ctx, snips, Scan(last, rest, s.taken + ts, s.imports), n')
  }

  lemma {:induction false} TakesBoth(ctx: Context, snips: Snippets, s: Scan, n: nat, a: seq<Token>, l: Token,
                                     mid: seq<Token>, m: nat, b: seq<Token>, l': Token, rest: seq<Token>, n': nat)
    requires Takes(ctx, snips, s, n, a, l, mid, m)
    requires Takes(ctx, snips, Scan(l, mid, s.taken + a, s.imports), m, b, l', rest, n')
    ensures Takes(ctx, snips, s, n, a + b, l', rest, n')
  {
    hide ScanDirective;
    assert s.taken + a + b == s.taken + (a + b);
  }

  lemma {:induction false} TakesNothing(ctx: Context, snips: Snippets, s: Scan, n: nat)
    ensures Takes(ctx, snips, s, n, [], s.last, s.unread, n)
  {
    assert s.taken + [] == s.taken;
  }

  /** One token that belongs to the directive being scanned. */
  lemma {:induction false} TakeToken(ctx: Context, snips: Snippets, s: Scan, n: nat, rest: seq<Token>, line: nat,
                                     text: string)
    requires s.unread == [Tok(line, text)] + rest && Fixed(ctx, text)
    requires text != "{" && text != "}"
    requires EndsOn(s.last, line) || (n > 0 && text != "import")
    ensures Takes(ctx, snips, s, n, [Tok(line, text)], Tok(line, text), rest, n)
  {
    assert s.unread[1..] == rest;
  }

  lemma {:induction false} TakeOpen(ctx: Context, snips: Snippets, s: Scan, n: nat, rest: seq<Token>, line: nat)
    requires s.unread == [Tok(line, "{")] + rest && Fixed(ctx, "{")
    ensures Takes(ctx, snips, s, n, [Tok(line, "{")], Tok(line, "{"), rest, n + 1)
  {
    assert s.unread[1..] == rest;
  }

  lemma {:induction false} TakeClose(ctx: Context, snips: Snippets, s: Scan, n: nat, rest: seq<Token>, line: nat)
    requires s.unread == [Tok(line, "}")] + rest && Fixed(ctx, "}")
    ensures Takes(ctx, snips, s, n + 1, [Tok(line, "}")], Tok(line, "}"), rest, n)
  {
    assert s.unread[1..] == rest;
  }

  lemma {:induction false} BraceEnds(line: nat)
    ensures EndsOn(Tok(line, "{"), line) && EndsOn(Tok(line, "}"), line)
  {
    assert "{"[1..] == [] && "}"[1..] == [];
  }

  lemma {:induction false} AtomFacts(ctx: Context, items: seq<Json>)
    requires items != [] && items[0].Str? && GoodItems(items) && FixedItems(ctx, items)
    ensures GoodAtom(items[0].s) && Fixed(ctx, items[0].s) && GoodItems(items[1..]) && FixedItems(ctx, items[1..])
  {
  }

  lemma {:induction false} NestedFacts(ctx: Context, items: seq<Json>)
    requires items != [] && items[0].Arr? && GoodItems(items) && FixedItems(ctx, items)
    ensures |items| == 1 && GoodRows(items[0].items) && FixedRows(ctx, items[0].items)
  {
  }

  lemma {:induction false} RowFacts(ctx: Context, rows: seq<Json>)
    requires rows != [] && GoodRows(rows) && FixedRows(ctx, rows)
    ensures GoodRow(rows[0]) && GoodRows(rows[1..]) && FixedRows(ctx, rows[1..])
    ensures FixedItems(ctx, rows[0].items)
  {
  }

  /** The elements of a line are taken whole, the scan then standing on the line's last token. */
  lemma {:induction false} ScanItems(ctx: Context, snips: Snippets, s: Scan, n: nat, items: seq<Json>, line: nat,
                                     rest: seq<Token>)
    returns (last: Token)
    requires GoodItems(items) && FixedItems(ctx, items) && BracesFixed(ctx)
    requires s.unread == ItemTokens(items, line) + rest && EndsOn(s.last, line)
    ensures Takes(ctx, snips, s, n, ItemTokens(items, line), last, rest, n)
    ensures EndsOn(last, line + ItemBreaks(items))
    decreases items, 2
  {
    hide ScanDirective, Takes;
    if items == [] {
      last := s.last;
      assert [] + rest == rest;
      TakesNothing(ctx, snips, s, n);
    } else {
      match items[0]
      case Str(text) => last := ScanAtom(ctx, snips, s, n, items, line, rest);
      case Arr(rows) => last := ScanNested(ctx, snips, s, n, items, line, rest);
    }
  }

  lemma {:induction false} ScanAtom(ctx: Context, snips: Snippets, s: Scan, n: nat, items: seq<Json>, line: nat,
                                    rest: seq<Token>)
    returns (last: Token)
    requires items != [] && items[0].Str? && GoodItems(items) && FixedItems(ctx, items) && BracesFixed(ctx)
    requires s.unread == ItemTokens(items, line) + rest
    requires EndsOn(s.last, line) || (n > 0 && items[0].s != "import")
    ensures Takes(ctx, snips, s, n, ItemTokens(items, line), last, rest, n)
    ensures EndsOn(last, line + ItemBreaks(items))
    decreases items, 1
  {
    hide ScanDirective, Takes, ItemTokens, ItemBreaks, Breaks, GoodItems, FixedItems, Fixed;
    var text := items[0].s;
    var t := Tok(line, text);
    var line' := line + Breaks(text);
    var tail := ItemTokens(items[1..], line');
    AtomItemTokens(items, line);
    AtomFacts(ctx, items);
    assert s.unread == [t] + (tail + rest);
    TakeToken(ctx, snips, s, n, tail + rest, line, text);
    var s' := Scan(t, tail + rest, s.taken + [t], s.imports);
    last := ScanItems(ctx, snips, s', n, items[1..], line', rest);
    TakesBoth(ctx, snips, s, n, [t], t, tail + rest, n, tail, last, rest, n);
  }

  lemma {:induction false} ScanNested(ctx: Context, snips: Snippets, s: Scan, n: nat, items: seq<Json>, line: nat,
                                      rest: seq<Token>)
    returns (last: Token)
    requires items != [] && items[0].Arr? && GoodItems(items) && FixedItems(ctx, items) && BracesFixed(ctx)
    requires s.unread == ItemTokens(items, line) + rest
    ensures Takes(ctx, snips, s, n, ItemTokens(items, line), last, rest, n)
    ensures EndsOn(last, line + ItemBreaks(items))
    decreases items, 1
  {
    hide ScanDirective, Takes, ItemTokens, ItemBreaks, RowsTokens, RowsBreaks, Breaks, GoodItems, FixedItems, GoodRows,
         FixedRows;
    NestedFacts(ctx, items);
    var rows := items[0].items;
    var close := line + 1 + RowsBreaks(rows);
    var open := Tok(line, "{");
    last := Tok(close, "}");
    var inner, after := RowsTokens(rows, line + 1), [last] + rest;
    BlockItemTokens(items, line);
    BraceEnds(close);
    assert s.unread == [open] + (inner + after);
    TakeOpen(ctx, snips, s, n, inner + after, line);
    var s1 := Scan(open, inner + after, s.taken + [open], s.imports);
    var l := ScanRows(ctx, snips, s1, n + 1, rows, line + 1, after);
    var s2 := Scan(l, after, s.taken + [open] + inner, s.imports);
    TakeClose(ctx, snips, s2, n, rest, close);
    TakesBoth(ctx, snips, s1, n + 1, inner, l, after, n + 1, [last], last, rest, n);
    TakesBoth(ctx, snips, s, n, [open], open, inner + after, n + 1, inner + [last], last, rest, n);
  }

  lemma {:induction false} ScanRows(ctx: Context, snips: Snippets, s: Scan, n: nat, rows: seq<Json>, line: nat,
                                    rest: seq<Token>)
    returns (last: Token)
    requires n > 0 && GoodRows(rows) && FixedRows(ctx, rows) && BracesFixed(ctx)
    requires s.unread == RowsTokens(rows, line) + rest
    ensures Takes(ctx, snips, s, n, RowsTokens(rows, line), last, rest, n)
    decreases rows, 2
  {
    hide ScanDirective, Takes;
    if rows == [] {
      last := s.last;
      assert [] + rest == rest;
      TakesNothing(ctx, snips, s, n);
    } else {
      last := ScanFirstRow(ctx, snips, s, n, rows, line, rest);
    }
  }

  lemma {:induction false} ScanFirstRow(ctx: Context, snips: Snippets, s: Scan, n: nat, rows: seq<Json>, line: nat,
                                        rest: seq<Token>)
    returns (last: Token)
    requires n > 0 && rows != [] && GoodRows(rows) && FixedRows(ctx, rows) && BracesFixed(ctx)
    requires s.unread == RowsTokens(rows, line) + rest
    ensures Takes(ctx, snips, s, n, RowsTokens(rows, line), last, rest, n)
    decreases rows, 1
  {
    hide ScanDirective, Takes, ItemTokens, RowsTokens, ItemBreaks, RowsBreaks, GoodItems, GoodRows, FixedItems,
         FixedRows;
    RowFacts(ctx, rows);
    FirstRowTokens(rows, line);
    var items := rows[0].items;
    var line' := line + ItemBreaks(items) + 1;
    var first, tail := ItemTokens(items, line), RowsTokens(rows[1..], line');
    assert s.unread == first + (tail + rest);
    var l := ScanAtom(ctx, snips, s, n, items, line, tail + rest);
    var s' := Scan(l, tail + rest, s.taken + first, s.imports);
    last := ScanRows(ctx, snips, s', n, rows[1..], line', rest);
    TakesBoth(ctx, snips, s, n, first, l, tail + rest, n, tail, last, rest, n);
  }

  // ---------------------------------------------------------------------------------------------
  // A body
  // ---------------------------------------------------------------------------------------------

  /** A line of a body with the line number it is printed on. */
  datatype Placed = Placed(items: seq<Json>, line: nat)

  function Head(items: seq<Json>): string {
    if items == [] || items[0].Arr? then "" else items[0].s
  }

  function Place(rows: seq<Json>, line: nat): seq<Placed> {
    if rows == [] then []
    else
      var items := RowItems(rows[0]);
      [Placed(items, line)] + Place(rows[1..], line + ItemBreaks(items) + 1)
  }

  function SegmentOf(p: Placed): Segment {
    Segment(Head(p.items), ItemTokens(p.items, p.line))
  }

  function SegmentsOf(ps: seq<Placed>): seq<Segment> {
    seq(|ps|, i requires 0 <= i < |ps| => SegmentOf(ps[i]))
  }

  /** One line of the body: its directive takes exactly the line's tokens. */
  lemma {:induction false} ScanLine(ctx: Context, snips: Snippets, b: Body, items: seq<Json>, line: nat,
                                    rest: seq<Token>)
    returns (last: Token)
    requires GoodRow(Arr(items)) && FixedItems(ctx, items) && BracesFixed(ctx) && ctx.valid.None?
    requires b.unread == ItemTokens(items, line) + rest
    requires rest != [] && rest[0].file == "" && rest[0].line > line + ItemBreaks(items) && rest[0].text != "{"
    ensures ScanBody(ctx, snips, b) ==
            ScanBody(ctx, snips, Body(Some(last), rest, b.segs + [SegmentOf(Placed(items, line))], b.imports))
  {
    hide ItemTokens, ItemBreaks, Breaks, GoodItems, FixedItems, ScanDirective;
    AtomFacts(ctx, items);
    AtomItemTokens(items, line);
    var text := items[0].s;
    var t := Tok(line, text);
    var line' := line + Breaks(text);
    var tail := ItemTokens(items[1..], line');
    assert b.unread == [t] + (tail + rest);
    assert b.unread[1..] == tail + rest;
    var s := Scan(t, tail + rest, [t], b.imports);
    last := ScanItems(ctx, snips, s, 0, items[1..], line', rest);
    var s' := Scan(last, rest, [t] + tail, b.imports);
    DirectiveStops(ctx, snips, s', line + ItemBreaks(items));
    assert ScanDirective(ctx, snips, s, 0) == Ok(s');
  }

  lemma {:induction false} DirectiveStops(ctx: Context, snips: Snippets, s: Scan, line: nat)
    requires s.unread != [] && EndsOn(s.last, line)
    requires s.unread[0].file == "" && s.unread[0].line > line && s.unread[0].text != "{"
    ensures ScanDirective(ctx, snips, s, 0) == Ok(s)
  {
  }

  /** Every line of the body becomes a segment, and the scan ends on the block's own brace. */
  ghost predicate Collects(ctx: Context, snips: Snippets, b: Body, segs: seq<Segment>, close: Token, rest: seq<Token>) {
    ScanBody(ctx, snips, b) == Ok(Body(Some(close), rest, b.segs + segs, b.imports))
  }

  lemma {:induction false} ScanLines(ctx: Context, snips: Snippets, b: Body, rows: seq<Json>, line: nat, close: Token,
                                     rest: seq<Token>)
    requires GoodRows(rows) && FixedRows(ctx, rows) && BracesFixed(ctx) && ctx.valid.None?
    requires b.unread == RowsTokens(rows, line) + ([close] + rest) && close == Tok(line + RowsBreaks(rows), "}")
    ensures Collects(ctx, snips, b, SegmentsOf(Place(rows, line)), close, rest)
    decreases |rows|, 1
  {
    if rows == [] {
      assert b.unread == [close] + rest && b.unread[1..] == rest;
      assert b.segs + SegmentsOf([]) == b.segs;
    } else {
      hide ScanBody, Collects;
      ScanFirstLine(ctx, snips, b, rows, line, close, rest);
    }
  }

  lemma {:induction false} ScanFirstLine(ctx: Context, snips: Snippets, b: Body, rows: seq<Json>, line: nat,
                                         close: Token, rest: seq<Token>)
    requires rows != [] && GoodRows(rows) && FixedRows(ctx, rows) && BracesFixed(ctx) && ctx.valid.None?
    requires b.unread == RowsTokens(rows, line) + ([close] + rest) && close == Tok(line + RowsBreaks(rows), "}")
    ensures Collects(ctx, snips, b, SegmentsOf(Place(rows, line)), close, rest)
    decreases |rows|, 0
  {
    hide ScanBody, ItemTokens, RowsTokens, ItemBreaks, RowsBreaks, GoodItems, GoodRows, FixedItems, FixedRows, Place,
         SegmentsOf, SegmentOf;
    RowFacts(ctx, rows);
    FirstRowTokens(rows, line);
    var items := rows[0].items;
    var line' := line + ItemBreaks(items) + 1;
    NextLineStarts(ctx, rows[1..], line', close, rest);
    var first, tail := ItemTokens(items, line), RowsTokens(rows[1..], line');
    var after := tail + ([close] + rest);
    assert b.unread == first + after;
    assert rows[0] == Arr(items);
    var last := ScanLine(ctx, snips, b, items, line, after);
    var p := Placed(items, line);
    var b' := Body(Some(last), after, b.segs + [SegmentOf(p)], b.imports);
    ScanLines(ctx, snips, b', rows[1..], line', close, rest);
    PlaceFirst(rows, line);
    var segs := SegmentsOf(Place(rows[1..], line'));
    assert b.segs + [SegmentOf(p)] + segs == b.segs + ([SegmentOf(p)] + segs);
  }

  lemma {:induction false} PlaceFirst(rows: seq<Json>, line: nat)
    requires rows != [] && rows[0].Arr?
    ensures var items := rows[0].items;
            SegmentsOf(Place(rows, line)) ==
            [SegmentOf(Placed(items, line))] + SegmentsOf(Place(rows[1..], line + ItemBreaks(items) + 1))
  {
    hide ItemBreaks, ItemTokens, SegmentOf;
  }

  /** What follows a line starts on the next one, and is no opening brace. */
  lemma {:induction false} NextLineStarts(ctx: Context, rows: seq<Json>, line: nat, close: Token, rest: seq<Token>)
    requires GoodRows(rows) && FixedRows(ctx, rows) && close == Tok(line + RowsBreaks(rows), "}")
    ensures var first := (RowsTokens(rows, line) + ([close] + rest))[0];
            first.file == "" && first.line == line && first.text != "{"
  {
    if rows != [] {
      hide ItemTokens, RowsTokens, ItemBreaks, RowsBreaks, GoodItems, GoodRows, FixedItems, FixedRows;
      RowFacts(ctx, rows);
      FirstRowTokens(rows, line);
      AtomFacts(ctx, rows[0].items);
      AtomItemTokens(rows[0].items, line);
    }
  }

  // ---------------------------------------------------------------------------------------------
  // Addresses, blocks and documents
  // ---------------------------------------------------------------------------------------------

  /** The whole address line is read, the scan then standing on the opening brace. */
  ghost predicate ReadsKeys(ctx: Context, snips: Snippets, a: Addresses, keys: seq<string>, prev: Token, at: seq<Token>)
  {
    ScanAddresses(ctx, snips, a) == Ok(Addresses(Some(prev), at, a.keys + keys, false, false, a.imports))
  }

  lemma {:induction false} OneAddress(ctx: Context, snips: Snippets, a: Addresses, k: string, line: nat,
                                      rest: seq<Token>)
    requires k != [] && GoodKey(k) && Fixed(ctx, k) && rest != []
    requires a.at == [Tok(line, k)] + rest && EndsOn(Tok(line, k), rest[0].line) && rest[0].file == ""
    ensures ScanAddresses(ctx, snips, a) ==
            ScanAddresses(ctx, snips, Addresses(Some(Tok(line, k)), rest, a.keys + [k], false, a.eof, a.imports))
  {
    hide PlainWord, Breaks;
    assert a.at[1..] == rest;
  }

  lemma {:induction false} AddressWithComma(ctx: Context, snips: Snippets, a: Addresses, k: string, line: nat,
                                            rest: seq<Token>)
    requires k != [] && GoodKey(k) && Fixed(ctx, k + ",") && rest != []
    requires a.at == [Tok(line, k + ",")] + rest
    ensures ScanAddresses(ctx, snips, a) ==
            ScanAddresses(ctx, snips, Addresses(Some(Tok(line, k + ",")), rest, a.keys + [k], true, a.eof, a.imports))
  {
    hide PlainWord, Breaks;
    assert a.at[1..] == rest;
    var tkn := k + ",";
    assert tkn[|tkn| - 1] == ',' && tkn[..|tkn| - 1] == k;
    assert tkn != "import" && tkn != "{" by {
      assert "import"[5] == 't' && "{"[0] == '{';
    }
  }

  lemma {:induction false} BraceEndsAddresses(ctx: Context, snips: Snippets, a: Addresses)
    requires a.at != [] && a.at[0].text == "{" && Fixed(ctx, "{") && !a.expecting
    ensures ScanAddresses(ctx, snips, a) == Ok(a)
  {
  }

  lemma {:induction false} KeyEnds(k: string, line: nat)
    requires GoodKey(k)
    ensures k != [] && EndsOn(Tok(line, k), line)
  {
    forall i | 0 <= i < |k|
      ensures k[i] != '\n'
    {
      assert WordChar(k[i]);
    }
    NoBreaks(k);
  }

  lemma {:induction false} ScanKeys(ctx: Context, snips: Snippets, a: Addresses, keys: seq<string>, line: nat,
                                    rest: seq<Token>)
    returns (prev: Token)
    requires GoodKeys(keys) && FixedKeys(ctx, keys) && Fixed(ctx, "{") && !a.eof
    requires a.at == KeyTokens(keys, line) + ([Tok(line, "{")] + rest)
    ensures ReadsKeys(ctx, snips, a, keys, prev, [Tok(line, "{")] + rest)
    decreases |keys|
  {
    hide ScanAddresses, GoodKey, Fixed;
    var k := keys[0];
    var open := [Tok(line, "{")] + rest;
    KeyEnds(k, line);
    if |keys| == 1 {
      assert keys[1..] == [] && k + "" == k;
      assert a.at == [Tok(line, k)] + open;
      OneAddress(ctx, snips, a, k, line, open);
      prev := Tok(line, k);
      assert a.keys + [k] == a.keys + keys;
      BraceEndsAddresses(ctx, snips, Addresses(Some(prev), open, a.keys + [k], false, a.eof, a.imports));
    } else {
      var tail := KeyTokens(keys[1..], line) + open;
      assert a.at == [Tok(line, k + ",")] + tail;
      AddressWithComma(ctx, snips, a, k, line, tail);
      var a' := Addresses(Some(Tok(line, k + ",")), tail, a.keys + [k], true, a.eof, a.imports);
      prev := ScanKeys(ctx, snips, a', keys[1..], line, rest);
      assert a.keys + [k] + keys[1..] == a.keys + keys;
    }
  }

  /** The block the parser is to make of a printed block. */
  function PlacedBody(b: EncodedServerBlock, line: nat): seq<Placed> {
    Place(Rows(b.body), line + 1)
  }

  ghost predicate FixedBlock(ctx: Context, b: EncodedServerBlock) {
    FixedKeys(ctx, b.keys) && FixedRows(ctx, Rows(b.body))
  }

  lemma {:induction false} ScanBlock(ctx: Context, snips: Snippets, prev: Option<Token>, b: EncodedServerBlock,
                                     line: nat, rest: seq<Token>, imports: nat)
    requires GoodBlock(b) && SnippetName(b.keys).None? && FixedBlock(ctx, b) && BracesFixed(ctx) && ctx.valid.None?
    ensures BlockTokens(b, line) != []
    ensures ScanOne(ctx, snips, prev, BlockTokens(b, line) + rest, imports) ==
            Ok(Block(b.keys, SegmentsOf(PlacedBody(b, line)), Some(Tok(line + BlockBreaks(b), "}")), rest, snips,
                     imports))
  {
    hide ScanAddresses, ScanBody, RowsTokens, RowsBreaks, GoodRows, GoodKeys, FixedRows, FixedKeys, Place, SegmentsOf;
    var rows := Rows(b.body);
    var close, open := Tok(line + BlockBreaks(b), "}"), Tok(line, "{");
    var inner := RowsTokens(rows, line + 1) + ([close] + rest);
    var at := BlockTokens(b, line) + rest;
    assert at == KeyTokens(b.keys, line) + ([open] + inner);
    var a := Addresses(prev, at, [], false, false, imports);
    var last := ScanKeys(ctx, snips, a, b.keys, line, inner);
    assert [] + b.keys == b.keys;
    var body := Body(Some(open), inner, [], imports);
    ScanLines(ctx, snips, body, rows, line + 1, close, rest);
    var segs := SegmentsOf(PlacedBody(b, line));
    assert [] + segs == segs;
    assert ([open] + inner)[1..] == inner;
  }

  function ServerBlocks(doc: seq<EncodedServerBlock>, line: nat): seq<ServerBlock> {
    if doc == [] then []
    else
      [ServerBlock(doc[0].keys, Group(SegmentsOf(PlacedBody(doc[0], line))))] +
      ServerBlocks(doc[1..], line + BlockBreaks(doc[0]) + 2)
  }

  /** The documents that are parsed back to what was printed. */
  ghost predicate GoodDoc(ctx: Context, doc: seq<EncodedServerBlock>) {
    forall i :: 0 <= i < |doc| ==> GoodBlock(doc[i]) && SnippetName(doc[i].keys).None? && FixedBlock(ctx, doc[i])
  }

  ghost predicate ParsesTo(ctx: Context, snips: Snippets, last: Option<Token>, tokens: seq<Token>,
                           blocks: seq<ServerBlock>, imports: nat, result: seq<ServerBlock>)
  {
    ScanAll(ctx, snips, last, tokens, blocks, imports) == Parsed(result, Ok(()))
  }

  lemma {:induction false} ScanDoc(ctx: Context, snips: Snippets, last: Option<Token>, doc: seq<EncodedServerBlock>,
                                   line: nat, blocks: seq<ServerBlock>, imports: nat)
    requires GoodDoc(ctx, doc) && BracesFixed(ctx) && ctx.valid.None?
    ensures ParsesTo(ctx, snips, last, DocTokens(doc, line), blocks, imports, blocks + ServerBlocks(doc, line))
    decreases |doc|, 1
  {
    if doc == [] {
      assert blocks + [] == blocks;
    } else {
      hide ScanAll, ParsesTo;
      ScanFirstBlock(ctx, snips, last, doc, line, blocks, imports);
    }
  }

  lemma {:induction false} ScanFirstBlock(ctx: Context, snips: Snippets, last: Option<Token>,
                                          doc: seq<EncodedServerBlock>, line: nat, blocks: seq<ServerBlock>,
                                          imports: nat)
    requires doc != [] && GoodDoc(ctx, doc) && BracesFixed(ctx) && ctx.valid.None?
    ensures ParsesTo(ctx, snips, last, DocTokens(doc, line), blocks, imports, blocks + ServerBlocks(doc, line))
    decreases |doc|, 0
  {
    hide ScanOne, ScanAll, Group, BlockTokens, BlockBreaks, PlacedBody, SegmentsOf, GoodBlock, FixedBlock, BracesFixed,
      SnippetName, DocTokens, ServerBlocks;
    var b := doc[0];
    var line' := line + BlockBreaks(b) + 2;
    var rest := DocTokens(doc[1..], line');
    DocFirst(doc, line);
    ScanBlock(ctx, snips, last, b, line, rest, imports);
    HasKeys(b);
    AllTurn(ctx, snips, last, BlockTokens(b, line) + rest, blocks, imports);
    var one := [ServerBlock(b.keys, Group(SegmentsOf(PlacedBody(b, line))))];
    ScanDoc(ctx, snips, Some(Tok(line + BlockBreaks(b), "}")), doc[1..], line', blocks + one, imports);
    assert blocks + one + ServerBlocks(doc[1..], line') == blocks + (one + ServerBlocks(doc[1..], line'));
  }

  lemma {:induction false} DocFirst(doc: seq<EncodedServerBlock>, line: nat)
    requires doc != []
    ensures var line' := line + BlockBreaks(doc[0]) + 2;
            && DocTokens(doc, line) == BlockTokens(doc[0], line) + DocTokens(doc[1..], line')
            && ServerBlocks(doc, line) ==
               [ServerBlock(doc[0].keys, Group(SegmentsOf(PlacedBody(doc[0], line))))] + ServerBlocks(doc[1..], line')
  {
  }

  lemma {:induction false} AllTurn(ctx: Context, snips: Snippets, last: Option<Token>, unread: seq<Token>,
                                   blocks: seq<ServerBlock>, imports: nat)
    requires unread != []
    ensures var r := ScanOne(ctx, snips, last, unread, imports);
            r.Ok? && r.value.keys != [] ==>
              ScanAll(ctx, snips, last, unread, blocks, imports) ==
              ScanAll(ctx, r.value.snips, r.value.last, r.value.unread,
                      blocks + [ServerBlock(r.value.keys, Group(r.value.segs))], r.value.imports)
  {
    hide ScanOne, Group;
  }

  lemma {:induction false} HasKeys(b: EncodedServerBlock)
    requires GoodBlock(b)
    ensures b.keys != []
  {
  }
}
