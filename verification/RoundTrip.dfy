/**
 The round trip of the JSON form through Caddyfile text: print, lex, parse, rebuild.
 It crosses caddyfile/json.go, lexer.go, parse.go and dispenser.go.
 */
module RoundTrip {
  import opened Grammar
  import opened JsonBuild
  import opened JsonText
  import opened Lexer
  import Names
  import opened Sequences
  import opened TreeBuild
  import opened TreeParse
  import opened Wrappers

  // ---------------------------------------------------------------------------------------------
  // Lines ordered by directive
  // ---------------------------------------------------------------------------------------------

  /** The lines with the given names, name by name, each name's lines in their own order. */
  function ByNames(rows: seq<seq<Json>>, names: seq<string>): seq<seq<Json>> {
    if names == [] then [] else NamedRows(rows, names[0]) + ByNames(rows, names[1..])
  }

  function HeadSet(rows: seq<seq<Json>>): set<string> {
    set i | 0 <= i < |rows| :: Head(rows[i])
  }

  /** The lines sorted by directive name, lines of the same name kept in order. */
  ghost function ByDirective(rows: seq<seq<Json>>): seq<seq<Json>> {
    ByNames(rows, Names.InOrder(HeadSet(rows)))
  }

  /** Directive lines are in the order of their names. */
  ghost predicate OrderedByName(rows: seq<seq<Json>>) {
    forall i, j :: 0 <= i < j < |rows| ==> Names.Leq(Head(rows[i]), Head(rows[j]))
  }

  lemma {:induction false} NamedRowsHeads(rows: seq<seq<Json>>, name: string)
    ensures forall r :: r in NamedRows(rows, name) ==> Head(r) == name
    ensures name !in HeadSet(rows) ==> NamedRows(rows, name) == []
  {
    if rows != [] {
      hide Head;
      NamedRowsHeads(rows[1..], name);
      assert HeadSet(rows) == HeadSet(rows[1..]) + {Head(rows[0])};
    }
  }

  lemma {:induction false} NamedRowsFirst(rows: seq<seq<Json>>, name: string)
    requires rows != []
    ensures NamedRows(rows, name) == (if Head(rows[0]) == name then [rows[0]] else []) + NamedRows(rows[1..], name)
  {
  }

  lemma {:induction false} NamedRowsConcat(a: seq<seq<Json>>, b: seq<seq<Json>>, name: string)
    ensures NamedRows(a + b, name) == NamedRows(a, name) + NamedRows(b, name)
  {
    if a == [] {
      assert a + b == b;
    } else {
      hide Head, NamedRows;
      NamedRowsFirst(a, name);
      NamedRowsFirst(a + b, name);
      NamedRowsConcat(a[1..], b, name);
      assert (a + b)[1..] == a[1..] + b;
      ConcatAssociates(if Head(a[0]) == name then [a[0]] else [], NamedRows(a[1..], name), NamedRows(b, name));
    }
  }

  lemma {:induction false} NamedTwice(rows: seq<seq<Json>>, n: string, name: string)
    ensures NamedRows(NamedRows(rows, n), name) == if n == name then NamedRows(rows, name) else []
  {
    if rows != [] {
      hide Head, NamedRows;
      var first := if Head(rows[0]) == n then [rows[0]] else [];
      NamedRowsFirst(rows, n);
      NamedRowsFirst(rows, name);
      NamedTwice(rows[1..], n, name);
      NamedRowsConcat(first, NamedRows(rows[1..], n), name);
      NamedOne(rows[0], name);
      NamedNone(name);
    }
  }

  lemma {:induction false} NamedOne(row: seq<Json>, name: string)
    ensures NamedRows([row], name) == if Head(row) == name then [row] else []
  {
    assert [row][1..] == [];
  }

  lemma {:induction false} NamedNone(name: string)
    ensures NamedRows([], name) == []
  {
  }

  /** Sorting keeps every name's lines as they were. */
  lemma {:induction false} ByNamesKeeps(rows: seq<seq<Json>>, names: seq<string>, name: string)
    requires forall i, j :: 0 <= i < j < |names| ==> names[i] != names[j]
    ensures NamedRows(ByNames(rows, names), name) == if name in names then NamedRows(rows, name) else []
  {
    if names != [] {
      hide Head, NamedRows;
      ByNamesKeeps(rows, names[1..], name);
      NamedRowsConcat(NamedRows(rows, names[0]), ByNames(rows, names[1..]), name);
      NamedTwice(rows, names[0], name);
    } else {
      NamedNone(name);
    }
  }

  lemma {:induction false} ByNamesOrdered(rows: seq<seq<Json>>, names: seq<string>)
    requires Names.Sorted(names)
    ensures OrderedByName(ByNames(rows, names))
    ensures forall r :: r in ByNames(rows, names) ==> Head(r) in names
  {
    if names != [] {
      hide Head, NamedRows, Names.Leq;
      var first, rest := NamedRows(rows, names[0]), ByNames(rows, names[1..]);
      ByNamesOrdered(rows, names[1..]);
      NamedRowsHeads(rows, names[0]);
      LeqSelf(names[0]);
      assert forall r :: r in rest ==> Head(r) in names[1..];
      forall i, j | 0 <= i < j < |first + rest|
        ensures Names.Leq(Head((first + rest)[i]), Head((first + rest)[j]))
      {
        if i < |first| {
          assert first[i] in first;
          if j < |first| {
            assert first[j] in first;
          } else {
            assert rest[j - |first|] in rest;
          }
        }
      }
    }
  }

  lemma {:induction false} LeqSelf(a: string)
    ensures Names.Leq(a, a)
  {
    Names.LeqTotal(a, a);
  }

  lemma {:induction false} RepeatsCount(names: seq<string>, i: nat, j: nat)
    requires i < j < |names|
    ensures names[i] == names[j] ==> multiset(names)[names[i]] >= 2
  {
    assert names == names[..j] + names[j..] && names[..j][i] == names[i] && names[j..][0] == names[j];
    assert multiset(names) == multiset(names[..j]) + multiset(names[j..]);
  }

  lemma {:induction false} Distinct(keys: set<string>)
    ensures var names := Names.InOrder(keys);
            && (forall i, j :: 0 <= i < j < |names| ==> names[i] != names[j])
            && (forall name :: name in names <==> name in keys)
  {
    hide Names.Leq;
    var names := Names.InOrder(keys);
    forall name
      ensures name in names <==> name in keys
    {
      assert name in names <==> name in multiset(names);
    }
    forall i, j | 0 <= i < j < |names|
      ensures names[i] != names[j]
    {
      RepeatsCount(names, i, j);
    }
  }

  /** Ordered lists of lines with the same lines under every name are equal. */
  lemma {:induction false} OrderedUnique(a: seq<seq<Json>>, b: seq<seq<Json>>)
    requires OrderedByName(a) && OrderedByName(b)
    requires forall name :: NamedRows(a, name) == NamedRows(b, name)
    ensures a == b
    decreases |a|
  {
    hide Head, NamedRows, Names.Leq;
    if a == [] {
      if b != [] {
        NamedNone(Head(b[0]));
        NamedRowsFirst(b, Head(b[0]));
      }
    } else {
      NamedRowsFirst(a, Head(a[0]));
      SameHead(a, b);
      forall name
        ensures NamedRows(a[1..], name) == NamedRows(b[1..], name)
      {
        NamedRowsFirst(a, name);
        NamedRowsFirst(b, name);
        TailOf(if Head(a[0]) == name then [a[0]] else [], NamedRows(a[1..], name), NamedRows(b[1..], name));
      }
      OrderedUnique(a[1..], b[1..]);
      assert a == [a[0]] + a[1..] && b == [b[0]] + b[1..];
    }
  }

  lemma {:induction false} TailOf<T>(x: seq<T>, a: seq<T>, b: seq<T>)
    requires x + a == x + b
    ensures a == b
  {
    assert (x + a)[|x|..] == a && (x + b)[|x|..] == b;
  }

  lemma {:induction false} LeastHead(a: seq<seq<Json>>, b: seq<seq<Json>>)
    requires OrderedByName(b) && a != [] && NamedRows(a, Head(a[0])) == NamedRows(b, Head(a[0]))
    ensures b != [] && Names.Leq(Head(b[0]), Head(a[0]))
  {
    hide Head, NamedRows, Names.Leq;
    var name := Head(a[0]);
    NamedRowsFirst(a, name);
    NamedRowsHeads(b, name);
    assert name in HeadSet(b);
    var i :| 0 <= i < |b| && Head(b[i]) == name;
    if i == 0 {
      LeqSelf(name);
    }
  }

  lemma {:induction false} SameHead(a: seq<seq<Json>>, b: seq<seq<Json>>)
    requires OrderedByName(a) && OrderedByName(b) && a != []
    requires forall name :: NamedRows(a, name) == NamedRows(b, name)
    ensures b != [] && a[0] == b[0]
  {
    hide Head, NamedRows, Names.Leq;
    LeastHead(a, b);
    LeastHead(b, a);
    Names.LeqTotal(Head(a[0]), Head(b[0]));
    var name := Head(a[0]);
    NamedRowsFirst(a, name);
    NamedRowsFirst(b, name);
    assert ([a[0]] + NamedRows(a[1..], name))[0] == ([b[0]] + NamedRows(b[1..], name))[0];
  }

  /** Sorting by directive is stable, and changes nothing exactly when the lines are in order. */
  lemma {:induction false} ByDirectiveIsStableSort(rows: seq<seq<Json>>)
    ensures OrderedByName(ByDirective(rows))
    ensures forall name :: NamedRows(ByDirective(rows), name) == NamedRows(rows, name)
    ensures ByDirective(rows) == rows <==> OrderedByName(rows)
  {
    hide NamedRows, ByNames, OrderedByName, HeadSet;
    var names := Names.InOrder(HeadSet(rows));
    Distinct(HeadSet(rows));
    ByNamesOrdered(rows, names);
    forall name
      ensures NamedRows(ByDirective(rows), name) == NamedRows(rows, name)
    {
      ByNamesKeeps(rows, names, name);
      NamedRowsHeads(rows, name);
    }
    if OrderedByName(rows) {
      OrderedUnique(ByDirective(rows), rows);
    }
  }

  // ---------------------------------------------------------------------------------------------
  // Rebuilding a body
  // ---------------------------------------------------------------------------------------------

  lemma {:induction false} BuildByNames(ps: seq<Placed>, names: seq<string>)
    requires Apart(ps) && GoodPlaced(ps)
    ensures RowsByName(Group(SegmentsOf(ps)), names) == ByNames(RowsOf(ps), names)
    decreases |names|
  {
    if names != [] {
      hide Group, BuildRows, NamedRows, Apart, GoodPlaced;
      BuildGroup(ps, names[0]);
      BuildByNames(ps, names[1..]);
    }
  }

  lemma {:induction false} BlanksAddNothing(rows: seq<seq<Json>>, n: nat, names: seq<string>)
    requires "" !in HeadSet(rows)
    ensures ByNames(rows, Names.Blanks(n) + names) == ByNames(rows, names)
    decreases n
  {
    if n == 0 {
      assert Names.Blanks(0) + names == names;
    } else {
      NamedRowsHeads(rows, "");
      var all := Names.Blanks(n) + names;
      assert all[0] == "" && all[1..] == Names.Blanks(n - 1) + names;
      BlanksAddNothing(rows, n - 1, names);
    }
  }

  lemma {:induction false} NoEmptyHeads(ps: seq<Placed>)
    requires GoodPlaced(ps)
    ensures "" !in HeadSet(RowsOf(ps)) && Heads(ps) == HeadSet(RowsOf(ps))
  {
    forall i | 0 <= i < |ps|
      ensures Head(ps[i].items) != ""
    {
      assert GoodRow(Arr(ps[i].items));
      GoodAtomOnly(ps[i].items);
    }
    var rows := RowsOf(ps);
    assert forall i :: 0 <= i < |ps| ==> rows[i] == ps[i].items;
    assert forall name :: name in Heads(ps) <==> name in HeadSet(rows);
  }

  /** The body rebuilt from a printed body is that body sorted by directive. */
  lemma {:induction false} BodyRebuilt(body: seq<seq<Json>>, line: nat)
    requires GoodRows(Rows(body))
    ensures BodyOf(Group(SegmentsOf(Place(Rows(body), line)))) == ByDirective(body)
  {
    hide Group, RowsByName, ByNames, Apart, GoodPlaced, GoodRows, HeadSet, SegmentsOf, Place, Heads, RowsOf;
    var ps := Place(Rows(body), line);
    var m := Group(SegmentsOf(ps));
    PlaceApart(Rows(body), line);
    PlaceRows(body, line);
    NoEmptyHeads(ps);
    GroupKeys(ps);
    var names := Names.InOrder(m.Keys);
    BuildByNames(ps, Names.Blanks(|m|) + names);
    BlanksAddNothing(body, |m|, names);
  }

  // ---------------------------------------------------------------------------------------------
  // The round trip
  // ---------------------------------------------------------------------------------------------

  /** Every block's body sorted by directive. */
  ghost function Sorted(doc: seq<EncodedServerBlock>): seq<EncodedServerBlock> {
    seq(|doc|, i requires 0 <= i < |doc| => doc[i].(body := ByDirective(doc[i].body)))
  }

  lemma {:induction false} EncodeFirst(blocks: seq<ServerBlock>)
    requires blocks != []
    ensures EncodeAll(blocks) == [EncodedServerBlock(blocks[0].keys, BodyOf(blocks[0].tokens))] + EncodeAll(blocks[1..])
  {
    hide BodyOf;
  }

  lemma {:induction false} SortedFirst(doc: seq<EncodedServerBlock>)
    requires doc != []
    ensures Sorted(doc) == [doc[0].(body := ByDirective(doc[0].body))] + Sorted(doc[1..])
  {
    hide ByDirective;
  }

  lemma {:induction false} NoBlocks(line: nat)
    ensures EncodeAll(ServerBlocks([], line)) == Sorted([])
  {
  }

  lemma {:induction false} BlocksRebuilt(ctx: Context, doc: seq<EncodedServerBlock>, line: nat)
    requires GoodDoc(ctx, doc)
    ensures EncodeAll(ServerBlocks(doc, line)) == Sorted(doc)
    decreases |doc|
  {
    hide Group, BodyOf, ByDirective, GoodRows, SegmentsOf, Place, Rows, BlockBreaks, SnippetName, FixedBlock,
      ServerBlocks, DocTokens, BlockTokens, EncodeAll, Sorted, GoodKeys;
    if doc == [] {
      NoBlocks(line);
    } else {
      var line' := line + BlockBreaks(doc[0]) + 2;
      BlocksRebuilt(ctx, doc[1..], line');
      BodyRebuilt(doc[0].body, line + 1);
      DocFirst(doc, line);
      EncodeFirst(ServerBlocks(doc, line));
      SortedFirst(doc);
    }
  }

  /**
   The domain of the round trip: strings that survive printing and are no syntax, nested blocks
   last on their line, plain addresses that are no snippet name, nothing that substitution changes.
   */
  ghost predicate Printable(ctx: Context, doc: seq<EncodedServerBlock>) {
    GoodDoc(ctx, doc) && NoLeadingBom(doc) && BracesFixed(ctx) && ctx.valid.None?
  }

  /**
   For every printable document: the printed text parses without error, and what is rebuilt from it
   is the document with each body sorted by directive name, lines of the same directive kept in
   order. It is the very same document if and only if every body was in that order already.
   */
  lemma {:induction false} TreeRoundTrip(ctx: Context, doc: seq<EncodedServerBlock>, imports: nat)
    requires Printable(ctx, doc)
    ensures var p := Parse(ctx, Lex(DocText(doc)), imports);
            && p.outcome == Ok(())
            && EncodeAll(p.blocks) == Sorted(doc)
            && (EncodeAll(p.blocks) == doc <==> forall i :: 0 <= i < |doc| ==> OrderedByName(doc[i].body))
  {
    hide ScanAll, Lex, DocText, DocTokens, GoodBlock, FixedBlock, SnippetName, ServerBlocks, EncodeAll, ByDirective,
         OrderedByName;
    LexDoc(doc);
    ScanDoc(ctx, map[], None, doc, 1, [], imports);
    assert [] + ServerBlocks(doc, 1) == ServerBlocks(doc, 1);
    BlocksRebuilt(ctx, doc, 1);
    SortedWhenOrdered(doc);
  }

  lemma {:induction false} SortedWhenOrdered(doc: seq<EncodedServerBlock>)
    ensures Sorted(doc) == doc <==> forall i :: 0 <= i < |doc| ==> OrderedByName(doc[i].body)
  {
    hide ByDirective, OrderedByName;
    forall i | 0 <= i < |doc|
      ensures Sorted(doc)[i] == doc[i] <==> OrderedByName(doc[i].body)
    {
      ByDirectiveIsStableSort(doc[i].body);
    }
  }
}
