/**
 The two conversions of caddyfile/json.go as they run: FromJSON builds text in loops, ToJSON lexes,
 parses and encodes. JSON decoding and encoding itself is not part of the model: both work on trees.
 */
module Conversion {
  import EnvRefs
  import opened Grammar
  import opened JsonBuild
  import opened JsonText
  import opened Lexer
  import opened Parser
  import opened RoundTrip
  import opened TreeParse
  import opened Wrappers

  /** The addresses of a block, separated by commas. */
  method AppendKeys(text: string, keys: seq<string>) returns (result: string)
    ensures result == text + KeysText(keys)
  {
    result := text;
    assert keys[0..] == keys;
    for i := 0 to |keys|
      invariant text + KeysText(keys) == result + (if 0 < i < |keys| then ", " else "") + KeysText(keys[i..])
    {
      KeysFirst(keys, i);
      if i > 0 {
        result := result + ", ";
      }
      result := result + keys[i];
    }
  }

  lemma {:induction false} KeysFirst(keys: seq<string>, i: nat)
    requires i < |keys|
    ensures KeysText(keys[i..]) == keys[i] + (if i + 1 < |keys| then ", " else "") + KeysText(keys[i + 1..])
  {
    assert keys[i..][1..] == keys[i + 1..];
  }

  lemma {:induction false} DocTextFirst(doc: seq<EncodedServerBlock>, i: nat)
    requires i < |doc|
    ensures DocText(doc[i..]) == BlockText(doc[i]) + (if i + 1 < |doc| then "\n\n" else "") + DocText(doc[i + 1..])
  {
    assert doc[i..][1..] == doc[i + 1..];
  }

  /** FromJSON: the text of a decoded document. */
  method FromJson(doc: seq<EncodedServerBlock>) returns (result: string)
    ensures result == DocText(doc)
  {
    hide DocText, KeysText, RowsText;
    result := "";
    DocTextNone();
    assert doc[0..] == doc && doc[|doc|..] == [];
    for i := 0 to |doc|
      invariant DocText(doc) == result + ((if 0 < i < |doc| then "\n\n" else "") + DocText(doc[i..]))
    {
      DocTextFirst(doc, i);
      ghost var was, rest := result, DocText(doc[i + 1..]);
      if i > 0 {
        result := result + "\n\n";
      }
      ghost var mid := result;
      var body := " {\n" + RowsText(Rows(doc[i].body), 1) + Tabs(0) + "}";
      result := AppendKeys(result, doc[i].keys);
      result := result + body;
      assert result == mid + BlockText(doc[i]);
    }
  }

  lemma {:induction false} DocTextNone()
    ensures DocText([]) == ""
  {
  }

  /** ToJSON: the tree of a text, or the parser's error. */
  method ToJson(ctx: Context, text: string, imports: nat) returns (r: Result<seq<EncodedServerBlock>>)
    ensures var p := Parse(ctx, Lex(text), imports);
            match p.outcome
            case Err(e) => r == Err(e)
            case OutOfImports => r == OutOfImports
            case Ok(_) => r == Ok(EncodeAll(p.blocks))
  {
    hide ScanAll, Lex, EncodeAll;
    var p := ParseText(ctx, text, imports);
    match p.outcome
    case Err(e) => return Err(e);
    case OutOfImports => return OutOfImports;
    case Ok(_) =>
      var j := EncodeBlocks(p.blocks);
      return Ok(j);
  }

  /** Printing a document and reading it back gives it with its bodies sorted by directive. */
  method PrintAndRead(ctx: Context, doc: seq<EncodedServerBlock>, imports: nat)
    returns (r: Result<seq<EncodedServerBlock>>)
    requires Printable(ctx, doc)
    ensures r == Ok(Sorted(doc))
    ensures r == Ok(doc) <==> forall i :: 0 <= i < |doc| ==> OrderedByName(doc[i].body)
  {
    hide ScanAll, Lex, EncodeAll, DocText, Sorted, GoodDoc, OrderedByName;
    TreeRoundTrip(ctx, doc, imports);
    var text := FromJson(doc);
    r := ToJson(ctx, text, imports);
  }

  // ---------------------------------------------------------------------------------------------
  // With the substitution of environment references
  // ---------------------------------------------------------------------------------------------

  ghost predicate NoMarkers(s: string) {
    EnvRefs.Index(s, "{%") == -1 && EnvRefs.Index(s, "{$") == -1
  }

  ghost predicate NoMarkersIn(items: seq<Json>)
    decreases items
  {
    items == [] ||
    ((match items[0]
      case Str(s) => NoMarkers(s)
      case Arr(rows) => NoMarkersIn(rows)) && NoMarkersIn(items[1..]))
  }

  /** The substitution of a parse is that of an environment, wherever the latter comes to an end. */
  ghost predicate Substitutes(ctx: Context, env: EnvRefs.Env) {
    forall s, t :: EnvRefs.Yields(env, s, t) ==> Subst(ctx, s) == t
  }

  /** The context of a parse without a directive list, in an environment without opening braces in its values. */
  function InEnvironment(env: EnvRefs.Env, files: string -> Option<seq<Token>>): Context
    requires EnvRefs.NoBraceValues(env)
  {
    Context(s => EnvRefs.ReplaceEnvVars(env, s), None, files)
  }

  lemma {:induction false} InEnvironmentSubstitutes(env: EnvRefs.Env, files: string -> Option<seq<Token>>)
    requires EnvRefs.NoBraceValues(env)
    ensures Substitutes(InEnvironment(env, files), env)
  {
    hide EnvRefs.ReplaceEnvVars, EnvRefs.Yields;
    forall s, t | EnvRefs.Yields(env, s, t)
      ensures Subst(InEnvironment(env, files), s) == t
    {
      EnvRefs.YieldsPass(env, s, t);
    }
  }

  lemma {:induction false} MarkerFreeFixed(ctx: Context, env: EnvRefs.Env, s: string)
    requires Substitutes(ctx, env) && NoMarkers(s)
    ensures Fixed(ctx, s)
  {
    hide EnvRefs.Yields;
    EnvRefs.NoMarkers(env, s);
  }

  lemma {:induction false} FixedTree(ctx: Context, env: EnvRefs.Env, items: seq<Json>)
    requires Substitutes(ctx, env) && NoMarkersIn(items)
    ensures FixedItems(ctx, items) && FixedRows(ctx, items)
    decreases items
  {
    hide NoMarkers, Fixed, Substitutes;
    if items != [] {
      FixedTree(ctx, env, items[1..]);
      match items[0]
      case Str(s) => MarkerFreeFixed(ctx, env, s);
      case Arr(rows) => FixedTree(ctx, env, rows);
    }
  }

  lemma {:induction false} CommaAddsNoMarker(k: string, marker: string)
    requires |marker| == 2 && marker[1] != ',' && EnvRefs.Index(k, marker) == -1
    ensures EnvRefs.Index(k + ",", marker) == -1
  {
    var i := EnvRefs.Index(k + ",", marker);
    if i != -1 {
      assert (k + ",")[i..i + 2][1] == (k + ",")[i + 1];
      assert i + 1 != |k|;
      assert k[i..i + 2] == (k + ",")[i..i + 2];
      EnvRefs.IndexIsFirst(k, marker, i);
    }
  }

  /** No string of the document has a reference marker. */
  ghost predicate MarkerFree(doc: seq<EncodedServerBlock>) {
    forall i :: 0 <= i < |doc| ==>
                  && (forall k :: k in doc[i].keys ==> NoMarkers(k))
                  && NoMarkersIn(Rows(doc[i].body))
  }

  /**
   The domain in plain terms: for good trees without reference markers the round trip holds in every
   environment, whatever files there are to import.
   */
  lemma {:induction false} PrintableInEnvironment(ctx: Context, env: EnvRefs.Env, doc: seq<EncodedServerBlock>)
    requires Substitutes(ctx, env) && ctx.valid.None? && MarkerFree(doc) && NoLeadingBom(doc)
    requires forall i :: 0 <= i < |doc| ==> GoodBlock(doc[i]) && SnippetName(doc[i].keys).None?
    ensures Printable(ctx, doc)
  {
    hide GoodBlock, SnippetName, NoMarkers, NoLeadingBom, FixedRows, NoMarkersIn, Fixed, Substitutes;
    forall i | 0 <= i < |doc|
      ensures FixedBlock(ctx, doc[i])
    {
      FixedTree(ctx, env, Rows(doc[i].body));
      forall j | 0 <= j < |doc[i].keys|
        ensures Fixed(ctx, doc[i].keys[j]) && Fixed(ctx, doc[i].keys[j] + ",")
      {
        FixedKey(ctx, env, doc[i].keys[j]);
      }
    }
    FixedBraces(ctx, env);
  }

  lemma {:induction false} FixedKey(ctx: Context, env: EnvRefs.Env, k: string)
    requires Substitutes(ctx, env) && NoMarkers(k)
    ensures Fixed(ctx, k) && Fixed(ctx, k + ",")
  {
    hide Substitutes, Fixed;
    CommaAddsNoMarker(k, "{%");
    CommaAddsNoMarker(k, "{$");
    MarkerFreeFixed(ctx, env, k);
    MarkerFreeFixed(ctx, env, k + ",");
  }

  lemma {:induction false} FixedBraces(ctx: Context, env: EnvRefs.Env)
    requires Substitutes(ctx, env)
    ensures BracesFixed(ctx)
  {
    hide Substitutes;
    MarkerFreeFixed(ctx, env, "{");
    MarkerFreeFixed(ctx, env, "}");
  }
}
