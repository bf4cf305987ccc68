/** A document that the round trip brings back in another order (caddyfile/json.go, ToJSON). */
module Reordering {
  import opened Atoms
  import opened Grammar
  import opened JsonBuild
  import opened JsonText
  import opened Lexer
  import Names
  import opened RoundTrip
  import opened TreeBuild
  import opened TreeParse
  import opened Wrappers

  /** One site with two directives. */
  function TwoDirectives(first: string, second: string): seq<EncodedServerBlock> {
    [EncodedServerBlock(["h"], [[Str(first)], [Str(second)]])]
  }

  lemma {:induction false} ShortAtom(s: string)
    requires s == "a" || s == "b"
    ensures GoodItems([Str(s)]) && GoodRow(Arr([Str(s)]))
  {
    assert |s| == 1 && s[0] in {'a', 'b'};
    assert Survives(s) && s != "{" && s != "}" && s != "import";
    assert [Str(s)][1..] == [] && GoodItems([]);
    assert GoodAtom(s);
  }

  lemma {:induction false} GoodExample()
    ensures GoodBlock(TwoDirectives("b", "a")[0]) && SnippetName(["h"]) == None
  {
    hide GoodRow, GoodItems;
    ShortAtom("a");
    ShortAtom("b");
    var b, a := [Str("b")], [Str("a")];
    var rows := Rows([b, a]);
    assert rows == [Arr(b), Arr(a)] && rows[1..] == [Arr(a)] && [Arr(a)][1..] == [];
    assert GoodRows([]);
    assert GoodRows([Arr(a)]);
    assert GoodRows(rows);
    assert "h"[0] == 'h' && "import"[0] == 'i' && |"h"| == 1;
    assert PlainWord("h") && GoodKey("h");
  }

  lemma {:induction false} AllFixed(ctx: Context, items: seq<Json>)
    requires forall s :: Fixed(ctx, s)
    ensures FixedItems(ctx, items) && FixedRows(ctx, items)
    decreases items
  {
    hide Fixed;
    if items != [] {
      AllFixed(ctx, items[1..]);
      match items[0]
      case Str(_) =>
      case Arr(rows) => AllFixed(ctx, rows);
    }
  }

  lemma {:induction false} NamesInOrder()
    ensures Names.InOrder({"a", "b"}) == ["a", "b"]
  {
    assert "a"[0] < "b"[0];
    assert Names.Leq("a", "b");
    assert Names.Sorted(["a", "b"]);
    assert multiset(["a", "b"]) == multiset({"a", "b"});
    Names.SortedUnique(Names.InOrder({"a", "b"}), ["a", "b"]);
  }

  lemma {:induction false} SortedExample()
    ensures ByDirective([[Str("b")], [Str("a")]]) == [[Str("a")], [Str("b")]]
  {
    hide Names.InOrder;
    var b, a := [Str("b")], [Str("a")];
    var rows := [b, a];
    assert "a"[0] != "b"[0];
    assert Head(a) == "a" && Head(b) == "b";
    assert HeadSet(rows) == {"a", "b"} by {
      assert Head(rows[0]) == "b" && Head(rows[1]) == "a";
    }
    NamesInOrder();
    assert rows[1..] == [a] && [a][1..] == [] && NamedRows([], "a") == [] && NamedRows([], "b") == [];
    assert NamedRows([a], "a") == [a] && NamedRows([a], "b") == [];
    assert NamedRows(rows, "a") == [a] && NamedRows(rows, "b") == [b];
    assert ["a", "b"][1..] == ["b"] && ["b"][1..] == [];
    assert ByNames(rows, []) == [] && ByNames(rows, ["b"]) == [b];
    assert ByNames(rows, ["a", "b"]) == [a] + [b];
  }

  /** The directives b and a, in this order, come back as a and b. */
  lemma {:induction false} ReorderedExample(files: string -> Option<seq<Token>>, imports: nat)
    ensures var ctx := Context(s => s, None, files);
            var p := Parse(ctx, Lex(DocText(TwoDirectives("b", "a"))), imports);
            p.outcome == Ok(()) && EncodeAll(p.blocks) == TwoDirectives("a", "b") != TwoDirectives("b", "a")
  {
    hide GoodBlock, SnippetName, FixedRows, ScanAll, Lex, DocText, EncodeAll, ByDirective, OrderedByName;
    var ctx := Context(s => s, None, files);
    var doc := TwoDirectives("b", "a");
    GoodExample();
    assert forall s :: Fixed(ctx, s);
    AllFixed(ctx, Rows(doc[0].body));
    assert FixedBlock(ctx, doc[0]);
    assert "h"[0] == 'h' && NoLeadingBom(doc);
    assert Printable(ctx, doc);
    TreeRoundTrip(ctx, doc, imports);
    SortedExample();
    assert Sorted(doc) == TwoDirectives("a", "b");
    assert "a"[0] != "b"[0];
    assert TwoDirectives("a", "b")[0].body[0][0] != TwoDirectives("b", "a")[0].body[0][0];
  }
}
