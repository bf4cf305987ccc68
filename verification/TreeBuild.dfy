/**
 Rebuilding a tree from the tokens of its lines, also when the lines have been sorted into groups
 by directive: the other half of the round trip.
 */
module TreeBuild {
  import opened Grammar
  import opened JsonBuild
  import opened JsonText
  import opened Lexer
  import opened Sequences
  import opened TreeParse

  // ---------------------------------------------------------------------------------------------
  // Lines and nested blocks
  // ---------------------------------------------------------------------------------------------

  /** What follows starts on a later line. */
  predicate Later(rest: seq<Token>, line: nat) {
    rest == [] || rest[0].line > line
  }

  /** The rest of a line is rebuilt whole, the build then standing on the line's last token. */
  lemma {:induction false} BuildItems(b: Built, items: seq<Json>, line: nat, rest: seq<Token>) returns (last: Token)
    requires GoodItems(items) && b.unread == ItemTokens(items, line) + rest && EndsOn(b.last, line)
    requires Later(rest, line + ItemBreaks(items))
    ensures BuildArgs(b) == Built(b.json + items, last, rest)
    decreases items, 2
  {
    if items == [] {
      last := b.last;
      assert [] + rest == rest && b.json + [] == b.json;
    } else {
      hide BuildArgs, ItemTokens, ItemBreaks;
      match items[0]
      case Str(text) => last := BuildAtom(b, items, line, rest);
      case Arr(rows) => last := BuildNested(b, items, line, rest);
    }
  }

  lemma {:induction false} BuildAtom(b: Built, items: seq<Json>, line: nat, rest: seq<Token>) returns (last: Token)
    requires items != [] && items[0].Str? && GoodItems(items)
    requires b.unread == ItemTokens(items, line) + rest && EndsOn(b.last, line) && Later(rest, line + ItemBreaks(items))
    ensures BuildArgs(b) == Built(b.json + items, last, rest)
    decreases items, 1
  {
    hide BuildArgs, BuildBlock, ItemTokens, ItemBreaks, GoodItems, Breaks;
    GoodAtomOnly(items);
    AtomItemTokens(items, line);
    var t := Tok(line, items[0].s);
    var line' := line + Breaks(items[0].s);
    var tail := ItemTokens(items[1..], line');
    assert b.unread == [t] + (tail + rest);
    assert b.unread[1..] == tail + rest;
    ArgsTurn(b);
    var b' := Built(b.json + [items[0]], t, tail + rest);
    assert Str(t.text) == items[0];
    last := BuildItems(b', items[1..], line', rest);
    assert b.json + [items[0]] + items[1..] == b.json + items;
  }

  lemma {:induction false} GoodAtomOnly(items: seq<Json>)
    requires items != [] && items[0].Str? && GoodItems(items)
    ensures items[0].s != "{" && items[0].s != "}" && items[0].s != "" && GoodItems(items[1..])
  {
  }

  lemma {:induction false} NestedOnly(items: seq<Json>)
    requires items != [] && items[0].Arr? && GoodItems(items)
    ensures |items| == 1 && GoodRows(items[0].items)
  {
  }

  lemma {:induction false} BuildNested(b: Built, items: seq<Json>, line: nat, rest: seq<Token>) returns (last: Token)
    requires items != [] && items[0].Arr? && GoodItems(items)
    requires b.unread == ItemTokens(items, line) + rest && EndsOn(b.last, line) && Later(rest, line + ItemBreaks(items))
    ensures BuildArgs(b) == Built(b.json + items, last, rest)
    decreases items, 1
  {
    hide BuildArgs, BuildBlock, ItemTokens, ItemBreaks, GoodItems, GoodRows, RowsTokens, RowsBreaks, Breaks;
    NestedOnly(items);
    var rows := items[0].items;
    BlockItemTokens(items, line);
    var close := line + 1 + RowsBreaks(rows);
    var open := Tok(line, "{");
    last := Tok(close, "}");
    var inner := RowsTokens(rows, line + 1) + ([last] + rest);
    assert b.unread == [open] + inner;
    assert b.unread[1..] == inner;
    ArgsTurn(b);
    BuildLines(Built([], open, inner), rows, line + 1, last, rest);
    assert [] + rows == rows;
    BraceEnds(close);
    var b' := Built(b.json + [Arr(rows)], last, rest);
    ArgsTurn(b');
    assert items == [Arr(rows)];
  }

  lemma {:induction false} BuildLines(b: Built, rows: seq<Json>, line: nat, close: Token, rest: seq<Token>)
    requires GoodRows(rows) && close == Tok(line + RowsBreaks(rows), "}")
    requires b.unread == RowsTokens(rows, line) + ([close] + rest)
    ensures BuildBlock(b) == Built(b.json + rows, close, rest)
    decreases rows, 2
  {
    if rows == [] {
      assert b.unread == [close] + rest && b.unread[1..] == rest;
      assert b.json + [] == b.json;
    } else {
      hide BuildBlock, RowsTokens, RowsBreaks;
      BuildFirstLine(b, rows, line, close, rest);
    }
  }

  lemma {:induction false} GoodFirst(rows: seq<Json>)
    requires rows != [] && GoodRows(rows)
    ensures GoodRow(rows[0]) && GoodRows(rows[1..])
  {
  }

  lemma {:induction false} BuildFirstLine(b: Built, rows: seq<Json>, line: nat, close: Token, rest: seq<Token>)
    requires rows != [] && GoodRows(rows) && close == Tok(line + RowsBreaks(rows), "}")
    requires b.unread == RowsTokens(rows, line) + ([close] + rest)
    ensures BuildBlock(b) == Built(b.json + rows, close, rest)
    decreases rows, 1
  {
    hide BuildArgs, BuildBlock, ItemTokens, ItemBreaks, GoodItems, GoodRows, RowsTokens, RowsBreaks, Breaks;
    GoodFirst(rows);
    FirstRowTokens(rows, line);
    var items := rows[0].items;
    var line' := line + ItemBreaks(items) + 1;
    var tail := RowsTokens(rows[1..], line') + ([close] + rest);
    FirstStarts(rows[1..], line', close, rest);
    assert b.unread == ItemTokens(items, line) + tail;
    var l := BuildLine(b.unread, items, line, tail);
    BlockTurn(b);
    AtomItemTokens(items, line);
    GoodAtomOnly(items);
    assert b.unread[0].text == items[0].s;
    var b' := Built(b.json + [Arr(items)], l, tail);
    BuildLines(b', rows[1..], line', close, rest);
    assert rows[0] == Arr(items);
    assert b.json + [rows[0]] + rows[1..] == b.json + rows;
  }

  /** A line from its first token on. */
  lemma {:induction false} BuildLine(ts: seq<Token>, items: seq<Json>, line: nat, rest: seq<Token>)
    returns (last: Token)
    requires GoodRow(Arr(items)) && ts == ItemTokens(items, line) + rest && Later(rest, line + ItemBreaks(items))
    ensures ts != [] && BuildArgs(Built([Str(ts[0].text)], ts[0], ts[1..])) == Built(items, last, rest)
    decreases items, 3
  {
    hide BuildArgs, BuildBlock, ItemTokens, ItemBreaks, GoodItems, Breaks;
    GoodAtomOnly(items);
    AtomItemTokens(items, line);
    var t := Tok(line, items[0].s);
    var line' := line + Breaks(items[0].s);
    var tail := ItemTokens(items[1..], line');
    assert ts == [t] + (tail + rest);
    assert ts[1..] == tail + rest;
    last := BuildItems(Built([Str(t.text)], t, tail + rest), items[1..], line', rest);
    assert [items[0]] + items[1..] == items;
  }

  lemma {:induction false} FirstStarts(rows: seq<Json>, line: nat, close: Token, rest: seq<Token>)
    requires GoodRows(rows) && close == Tok(line + RowsBreaks(rows), "}")
    ensures (RowsTokens(rows, line) + ([close] + rest))[0].line == line
  {
    if rows != [] {
      GoodFirst(rows);
      hide ItemTokens, RowsTokens, ItemBreaks, RowsBreaks, GoodItems, GoodRows;
      FirstRowTokens(rows, line);
      AtomItemTokens(rows[0].items, line);
    }
  }

  // ---------------------------------------------------------------------------------------------
  // Lines that stand apart
  // ---------------------------------------------------------------------------------------------

  /** Lines in increasing order of line numbers, none starting before an earlier one has ended. */
  ghost predicate Apart(ps: seq<Placed>) {
    forall i, j :: 0 <= i < j < |ps| ==> ps[i].line + ItemBreaks(ps[i].items) < ps[j].line
  }

  ghost predicate GoodPlaced(ps: seq<Placed>) {
    forall i :: 0 <= i < |ps| ==> GoodRow(Arr(ps[i].items))
  }

  function TokensOf(ps: seq<Placed>): seq<Token> {
    if ps == [] then [] else ItemTokens(ps[0].items, ps[0].line) + TokensOf(ps[1..])
  }

  function RowsOf(ps: seq<Placed>): seq<seq<Json>> {
    seq(|ps|, i requires 0 <= i < |ps| => ps[i].items)
  }

  lemma {:induction false} TokensStart(ps: seq<Placed>)
    requires GoodPlaced(ps) && ps != []
    ensures TokensOf(ps) != [] && TokensOf(ps)[0].line == ps[0].line
  {
    assert GoodRow(Arr(ps[0].items));
    AtomItemTokens(ps[0].items, ps[0].line);
  }

  /** Lines that stand apart are rebuilt one by one, wherever else they once stood. */
  lemma {:induction false} BuildApart(ps: seq<Placed>)
    requires Apart(ps) && GoodPlaced(ps)
    ensures BuildRows(TokensOf(ps)) == RowsOf(ps)
    decreases |ps|
  {
    hide BuildRows, TokensOf, ItemBreaks, GoodRow;
    NoRows();
    if ps != [] {
      BuildFirst(ps);
      BuildApart(ps[1..]);
      assert RowsOf(ps) == [ps[0].items] + RowsOf(ps[1..]);
    }
  }

  lemma {:induction false} NoRows()
    ensures TokensOf([]) == [] && BuildRows([]) == []
  {
  }

  /** The first of them is rebuilt, and the reader stands at the others. */
  lemma {:induction false} BuildFirst(ps: seq<Placed>)
    requires Apart(ps) && GoodPlaced(ps) && ps != []
    ensures BuildRows(TokensOf(ps)) == [ps[0].items] + BuildRows(TokensOf(ps[1..]))
  {
    hide BuildArgs, ItemTokens, ItemBreaks, GoodItems;
    var p, tail := ps[0], TokensOf(ps[1..]);
    if |ps| > 1 {
      TokensStart(ps[1..]);
    }
    assert GoodRow(Arr(p.items));
    var _ := BuildLine(TokensOf(ps), p.items, p.line, tail);
  }

  lemma {:induction false} PlaceApart(rows: seq<Json>, line: nat)
    ensures Apart(Place(rows, line))
    ensures forall i :: 0 <= i < |Place(rows, line)| ==> Place(rows, line)[i].line >= line
  {
    if rows != [] {
      hide ItemBreaks;
      PlaceApart(rows[1..], line + ItemBreaks(RowItems(rows[0])) + 1);
    }
  }

  lemma {:induction false} PlaceRows(body: seq<seq<Json>>, line: nat)
    requires GoodRows(Rows(body))
    ensures RowsOf(Place(Rows(body), line)) == body && GoodPlaced(Place(Rows(body), line))
    decreases |body|
  {
    if body != [] {
      hide ItemBreaks, GoodRow;
      assert Rows(body)[1..] == Rows(body[1..]);
      PlaceRows(body[1..], line + ItemBreaks(body[0]) + 1);
      assert body == [body[0]] + body[1..];
    }
  }

  // ---------------------------------------------------------------------------------------------
  // Lines grouped by directive
  // ---------------------------------------------------------------------------------------------

  function Named(ps: seq<Placed>, name: string): seq<Placed> {
    if ps == [] then []
    else (if Head(ps[0].items) == name then [ps[0]] else []) + Named(ps[1..], name)
  }

  lemma {:induction false} NamedFirst(ps: seq<Placed>, name: string)
    requires ps != []
    ensures Named(ps, name) == (if Head(ps[0].items) == name then [ps[0]] else []) + Named(ps[1..], name)
  {
  }

  lemma {:induction false} NamedConcat(a: seq<Placed>, b: seq<Placed>, name: string)
    ensures Named(a + b, name) == Named(a, name) + Named(b, name)
  {
    if a == [] {
      assert a + b == b;
    } else {
      hide Head, Named;
      NamedFirst(a, name);
      NamedFirst(a + b, name);
      NamedConcat(a[1..], b, name);
      assert (a + b)[1..] == a[1..] + b;
      ConcatAssociates(if Head(a[0].items) == name then [a[0]] else [], Named(a[1..], name), Named(b, name));
    }
  }

  lemma {:induction false} TokensFirst(ps: seq<Placed>)
    requires ps != []
    ensures TokensOf(ps) == ItemTokens(ps[0].items, ps[0].line) + TokensOf(ps[1..])
  {
  }

  lemma {:induction false} TokensConcat(a: seq<Placed>, b: seq<Placed>)
    ensures TokensOf(a + b) == TokensOf(a) + TokensOf(b)
  {
    if a == [] {
      assert a + b == b;
    } else {
      hide ItemTokens, TokensOf;
      TokensFirst(a);
      TokensFirst(a + b);
      TokensConcat(a[1..], b);
      assert (a + b)[1..] == a[1..] + b;
      ConcatAssociates(ItemTokens(a[0].items, a[0].line), TokensOf(a[1..]), TokensOf(b));
    }
  }

  /** The group of a name holds the tokens of the lines with that name, in order. */
  lemma {:induction false} GroupOf(ps: seq<Placed>, name: string)
    ensures Lookup(Group(SegmentsOf(ps)), name) == TokensOf(Named(ps, name))
    decreases |ps|
  {
    if ps != [] {
      hide ItemTokens, Named, TokensOf, Group, SegmentsOf, SegmentOf, Head, Lookup;
      var front, p := ps[..|ps| - 1], ps[|ps| - 1];
      GroupOf(front, name);
      GroupLast(ps);
      LookupAdded(Group(SegmentsOf(front)), SegmentOf(p), name);
      assert ps == front + [p];
      NamedConcat(front, [p], name);
      NamedSingle(p, name);
      TokensConcat(Named(front, name), Named([p], name));
      SegmentIs(p);
      var before := TokensOf(Named(front, name));
      assert before + [] == before;
    }
  }

  lemma {:induction false} LookupAdded(m: map<string, seq<Token>>, s: Segment, name: string)
    ensures Lookup(m[s.dir := (if s.dir in m then m[s.dir] else []) + s.tokens], name) ==
            Lookup(m, name) + if s.dir == name then s.tokens else []
  {
  }

  lemma {:induction false} SegmentIs(p: Placed)
    ensures SegmentOf(p).dir == Head(p.items) && SegmentOf(p).tokens == ItemTokens(p.items, p.line)
  {
    hide ItemTokens, Head;
  }

  lemma {:induction false} GroupLast(ps: seq<Placed>)
    requires ps != []
    ensures var m := Group(SegmentsOf(ps[..|ps| - 1]));
            var s := SegmentOf(ps[|ps| - 1]);
            Group(SegmentsOf(ps)) == m[s.dir := (if s.dir in m then m[s.dir] else []) + s.tokens]
  {
    hide ItemTokens, Head;
    assert SegmentsOf(ps)[..|ps| - 1] == SegmentsOf(ps[..|ps| - 1]);
  }

  lemma {:induction false} NamedSingle(p: Placed, name: string)
    ensures Named([p], name) == if Head(p.items) == name then [p] else []
    ensures TokensOf([p]) == ItemTokens(p.items, p.line) && TokensOf([]) == []
  {
    hide Head, ItemTokens;
    assert [p][1..] == [];
  }

  function Heads(ps: seq<Placed>): set<string> {
    set i | 0 <= i < |ps| :: Head(ps[i].items)
  }

  lemma {:induction false} GroupKeys(ps: seq<Placed>)
    ensures Group(SegmentsOf(ps)).Keys == Heads(ps)
    decreases |ps|
  {
    if ps != [] {
      hide ItemTokens, Group, SegmentsOf, Head;
      var front, p := ps[..|ps| - 1], ps[|ps| - 1];
      GroupKeys(front);
      GroupLast(ps);
      HeadsLast(ps);
      assert SegmentOf(p).dir == Head(p.items);
    }
  }

  lemma {:induction false} HeadsLast(ps: seq<Placed>)
    requires ps != []
    ensures Heads(ps) == Heads(ps[..|ps| - 1]) + {Head(ps[|ps| - 1].items)}
  {
    hide Head;
    var front := ps[..|ps| - 1];
    assert forall i :: 0 <= i < |front| ==> front[i] == ps[i];
  }

  /** Picking out the lines of one name keeps them good and apart. */
  lemma {:induction false} NamedApart(ps: seq<Placed>, name: string)
    requires Apart(ps) && GoodPlaced(ps)
    ensures Apart(Named(ps, name)) && GoodPlaced(Named(ps, name))
    ensures forall p :: p in Named(ps, name) ==> p in ps
    decreases |ps|
  {
    hide ItemBreaks, GoodRow, Head, Named;
    if ps == [] {
      NamedNone(name);
    } else {
      NamedFirst(ps, name);
      NamedApart(ps[1..], name);
      var tail := Named(ps[1..], name);
      forall j | 0 <= j < |tail|
        ensures ps[0].line + ItemBreaks(ps[0].items) < tail[j].line
      {
        assert tail[j] in ps[1..];
      }
      if Head(ps[0].items) == name {
        ApartFirst(ps[0], tail);
      }
    }
  }

  lemma {:induction false} NamedNone(name: string)
    ensures Named([], name) == []
  {
  }

  lemma {:induction false} ApartFirst(p: Placed, ps: seq<Placed>)
    requires Apart(ps) && GoodPlaced(ps) && GoodRow(Arr(p.items))
    requires forall j :: 0 <= j < |ps| ==> p.line + ItemBreaks(p.items) < ps[j].line
    ensures Apart([p] + ps) && GoodPlaced([p] + ps)
  {
    hide ItemBreaks, GoodRow;
  }

  function NamedRows(rows: seq<seq<Json>>, name: string): seq<seq<Json>> {
    if rows == [] then []
    else (if Head(rows[0]) == name then [rows[0]] else []) + NamedRows(rows[1..], name)
  }

  lemma {:induction false} NamedRowsOf(ps: seq<Placed>, name: string)
    ensures RowsOf(Named(ps, name)) == NamedRows(RowsOf(ps), name)
    decreases |ps|
  {
    if ps != [] {
      hide Head;
      NamedRowsOf(ps[1..], name);
      assert RowsOf(ps)[1..] == RowsOf(ps[1..]);
    }
  }

  /** The group of a name is rebuilt as the lines of that name. */
  lemma {:induction false} BuildGroup(ps: seq<Placed>, name: string)
    requires Apart(ps) && GoodPlaced(ps)
    ensures BuildRows(Lookup(Group(SegmentsOf(ps)), name)) == NamedRows(RowsOf(ps), name)
  {
    GroupOf(ps, name);
    NamedApart(ps, name);
    BuildApart(Named(ps, name));
    NamedRowsOf(ps, name);
  }
}
