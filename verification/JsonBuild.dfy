/**
 Rebuilding the JSON form from parsed tokens (caddyfile/json.go, ToJSON): constructLine and
 constructBlock as they move a dispenser's cursor, and the lines of a block in directive order.
 */
module JsonBuild {
  import opened Dispensing
  import opened Grammar
  import opened JsonText
  import opened Lexer
  import Names
  import opened Sequences

  // ---------------------------------------------------------------------------------------------
  // What the two construct functions compute
  // ---------------------------------------------------------------------------------------------

  /** The values built, the token the cursor stops on, and the tokens after it. */
  datatype Built = Built(json: seq<Json>, last: Token, unread: seq<Token>)

  /** The rest of a line: its further tokens, and the blocks that open on it. */
  function BuildArgs(b: Built): (r: Built)
    ensures |r.unread| <= |b.unread|
    decreases |b.unread|, 0
  {
    if b.unread == [] || !SameLine(b.last, b.unread[0]) then b
    else
      var t := b.unread[0];
      if t.text == "{" then
        var block := BuildBlock(Built([], t, b.unread[1..]));
        BuildArgs(Built(b.json + [Arr(block.json)], block.last, block.unread))
      else BuildArgs(Built(b.json + [Str(t.text)], t, b.unread[1..]))
  }

  /** The lines of a block, up to its closing brace or the end of the tokens. */
  function BuildBlock(b: Built): (r: Built)
    ensures |r.unread| <= |b.unread|
    decreases |b.unread|, 1
  {
    if b.unread == [] then b
    else
      var t := b.unread[0];
      if t.text == "}" then Built(b.json, t, b.unread[1..])
      else
        var line := BuildArgs(Built([Str(t.text)], t, b.unread[1..]));
        BuildBlock(Built(b.json + [Arr(line.json)], line.last, line.unread))
  }

  /** One directive's tokens, line by line. */
  function BuildRows(ts: seq<Token>): seq<seq<Json>>
    decreases |ts|
  {
    if ts == [] then []
    else
      var line := BuildArgs(Built([Str(ts[0].text)], ts[0], ts[1..]));
      [line.json] + BuildRows(line.unread)
  }

  lemma {:induction false} ArgsTurn(b: Built)
    ensures BuildArgs(b) ==
            if b.unread == [] || !SameLine(b.last, b.unread[0]) then b
            else if b.unread[0].text == "{" then
              var block := BuildBlock(Built([], b.unread[0], b.unread[1..]));
              BuildArgs(Built(b.json + [Arr(block.json)], block.last, block.unread))
            else BuildArgs(Built(b.json + [Str(b.unread[0].text)], b.unread[0], b.unread[1..]))
  {
  }

  lemma {:induction false} BlockTurn(b: Built)
    ensures BuildBlock(b) ==
            if b.unread == [] then b
            else if b.unread[0].text == "}" then Built(b.json, b.unread[0], b.unread[1..])
            else
              var line := BuildArgs(Built([Str(b.unread[0].text)], b.unread[0], b.unread[1..]));
              BuildBlock(Built(b.json + [Arr(line.json)], line.last, line.unread))
  {
  }

  /** A build that has come to position c of some tokens. */
  function At(json: seq<Json>, tokens: seq<Token>, c: nat): Built
    requires c < |tokens|
  {
    Built(json, tokens[c], tokens[c + 1..])
  }

  /** The dispenser stands where a build has come to. */
  ghost predicate Stands(d: Dispenser, b: Built)
    reads d
  {
    0 <= d.cursor < |d.tokens| && b == At(b.json, d.tokens, d.cursor)
  }

  /** One turn of the loop over the elements of a line. */
  lemma {:induction false} ArgsTurnAt(json: seq<Json>, tokens: seq<Token>, c: nat)
    requires c < |tokens|
    ensures BuildArgs(At(json, tokens, c)) ==
            if c + 1 == |tokens| || !SameLine(tokens[c], tokens[c + 1]) then At(json, tokens, c)
            else if tokens[c + 1].text == "{" then
              var block := BuildBlock(At([], tokens, c + 1));
              BuildArgs(Built(json + [Arr(block.json)], block.last, block.unread))
            else BuildArgs(At(json + [Str(tokens[c + 1].text)], tokens, c + 1))
  {
    hide BuildArgs, BuildBlock, SameLine;
    ArgsTurn(At(json, tokens, c));
    RestAfter(tokens, c);
  }

  /** One turn of the loop over the lines of a block. */
  lemma {:induction false} BlockTurnAt(json: seq<Json>, tokens: seq<Token>, c: nat)
    requires c < |tokens|
    ensures BuildBlock(At(json, tokens, c)) ==
            if c + 1 == |tokens| then At(json, tokens, c)
            else if tokens[c + 1].text == "}" then At(json, tokens, c + 1)
            else
              var line := BuildArgs(At([Str(tokens[c + 1].text)], tokens, c + 1));
              BuildBlock(Built(json + [Arr(line.json)], line.last, line.unread))
  {
    hide BuildArgs, BuildBlock;
    BlockTurn(At(json, tokens, c));
    RestAfter(tokens, c);
  }

  method ConstructLine(d: Dispenser) returns (args: seq<Json>)
    requires d.Valid() && 0 <= d.cursor < |d.tokens|
    modifies d`cursor
    ensures d.Valid() && old(d.cursor) <= d.cursor
    ensures var r := BuildArgs(At([Str(d.tokens[old(d.cursor)].text)], d.tokens, old(d.cursor)));
            args == r.json && Stands(d, r)
    decreases |d.tokens| - d.cursor, 0
  {
    hide BuildArgs, BuildBlock, SameLine;
    args := [Str(d.Val())];
    ghost var whole := BuildArgs(At(args, d.tokens, d.cursor));
    while true
      invariant d.Valid() && old(d.cursor) <= d.cursor < |d.tokens|
      invariant whole == BuildArgs(At(args, d.tokens, d.cursor))
      decreases |d.tokens| - d.cursor
    {
      ArgsTurnAt(args, d.tokens, d.cursor);
      var more := d.NextArg();
      if !more {
        break;
      }
      if d.Val() == "{" {
        var block := ConstructBlock(d);
        args := args + [Arr(block)];
        continue;
      }
      args := args + [Str(d.Val())];
    }
  }

  method ConstructBlock(d: Dispenser) returns (block: seq<Json>)
    requires d.Valid() && 0 <= d.cursor < |d.tokens|
    modifies d`cursor
    ensures d.Valid() && old(d.cursor) <= d.cursor
    ensures var r := BuildBlock(At([], d.tokens, old(d.cursor)));
            block == r.json && Stands(d, r)
    decreases |d.tokens| - d.cursor, 1
  {
    hide BuildArgs, BuildBlock;
    block := [];
    ghost var whole := BuildBlock(At([], d.tokens, d.cursor));
    while true
      invariant d.Valid() && old(d.cursor) <= d.cursor < |d.tokens|
      invariant whole == BuildBlock(At(block, d.tokens, d.cursor))
      decreases |d.tokens| - d.cursor
    {
      BlockTurnAt(block, d.tokens, d.cursor);
      var more := d.Next();
      if !more {
        break;
      }
      if d.Val() == "}" {
        break;
      }
      var line := ConstructLine(d);
      block := block + [Arr(line)];
    }
  }

  // ---------------------------------------------------------------------------------------------
  // A block's body
  // ---------------------------------------------------------------------------------------------

  function Lookup(m: map<string, seq<Token>>, name: string): seq<Token> {
    if name in m then m[name] else []
  }

  /** The lines of the named directives, in the order of the names. */
  function RowsByName(m: map<string, seq<Token>>, names: seq<string>): seq<seq<Json>> {
    if names == [] then [] else BuildRows(Lookup(m, names[0])) + RowsByName(m, names[1..])
  }

  lemma {:induction false} RowsByNameSnoc(m: map<string, seq<Token>>, names: seq<string>, name: string)
    ensures RowsByName(m, names + [name]) == RowsByName(m, names) + BuildRows(Lookup(m, name))
  {
    hide BuildRows, Lookup;
    if names == [] {
      assert [] + [name] == [name] && [name][1..] == [];
    } else {
      RowsByNameSnoc(m, names[1..], name);
      assert (names + [name])[1..] == names[1..] + [name];
    }
  }

  /** The body ToJSON makes of a block: names in order, with as many empty names before them. */
  ghost function BodyOf(m: map<string, seq<Token>>): seq<seq<Json>> {
    RowsByName(m, Names.Blanks(|m|) + Names.InOrder(m.Keys))
  }

  /** Each directive's lines once, in the order of the names. */
  ghost function EachOnce(m: map<string, seq<Token>>): seq<seq<Json>> {
    RowsByName(m, Names.InOrder(m.Keys))
  }

  lemma {:induction false} RowsByNameConcat(m: map<string, seq<Token>>, a: seq<string>, b: seq<string>)
    ensures RowsByName(m, a + b) == RowsByName(m, a) + RowsByName(m, b)
  {
    hide BuildRows, Lookup;
    if a == [] {
      assert a + b == b;
    } else {
      RowsByNameConcat(m, a[1..], b);
      assert (a + b)[0] == a[0] && (a + b)[1..] == a[1..] + b;
      ConcatAssociates(BuildRows(Lookup(m, a[0])), RowsByName(m, a[1..]), RowsByName(m, b));
    }
  }

  lemma {:induction false} BlankRows(m: map<string, seq<Token>>, n: nat)
    ensures |RowsByName(m, Names.Blanks(n))| == n * |BuildRows(Lookup(m, ""))|
  {
    hide BuildRows, Lookup, RowsByName, Names.Blanks;
    FirstBlank(m, n);
    if n > 0 {
      BlankRows(m, n - 1);
      Times(n, |BuildRows(Lookup(m, ""))|);
    }
  }

  lemma {:induction false} FirstBlank(m: map<string, seq<Token>>, n: nat)
    ensures RowsByName(m, Names.Blanks(n)) ==
            if n == 0 then [] else BuildRows(Lookup(m, "")) + RowsByName(m, Names.Blanks(n - 1))
  {
    hide BuildRows, Lookup;
    if n > 0 {
      assert Names.Blanks(n)[0] == "" && Names.Blanks(n)[1..] == Names.Blanks(n - 1);
    }
  }

  lemma {:induction false} Times(n: nat, x: nat)
    requires n > 0
    ensures n * x == x + (n - 1) * x
  {
  }

  /**
   The body holds the lines of a directive without a name once for every directive, before all the
   others: each directive's lines come exactly once if and only if no such directive has tokens.
   */
  lemma {:induction false} OnceIffNamed(m: map<string, seq<Token>>)
    ensures |BodyOf(m)| == |m| * |BuildRows(Lookup(m, ""))| + |EachOnce(m)|
    ensures BodyOf(m) == EachOnce(m) <==> "" !in m || m[""] == []
  {
    hide RowsByName, BuildRows;
    var blanks, names := Names.Blanks(|m|), Names.InOrder(m.Keys);
    RowsByNameConcat(m, blanks, names);
    BlankRows(m, |m|);
    RowsOfNothing(Lookup(m, ""));
    var extra := RowsByName(m, blanks);
    assert BodyOf(m) == extra + EachOnce(m);
    if "" !in m || m[""] == [] {
      assert extra == [];
    } else {
      assert "" in m.Keys;
      assert |m| > 0;
      Positive(|m|, |BuildRows(m[""])|);
    }
  }

  lemma {:induction false} Positive(a: nat, b: nat)
    requires a > 0 && b > 0
    ensures a * b > 0
  {
  }

  lemma {:induction false} RowsOfNothing(ts: seq<Token>)
    ensures BuildRows(ts) == [] <==> ts == []
  {
    hide BuildArgs;
  }

  /** The lines of one directive's tokens. */
  method DirectiveRows(tokens: seq<Token>) returns (rows: seq<seq<Json>>)
    ensures rows == BuildRows(tokens)
  {
    hide BuildArgs, BuildRows;
    var disp := new Dispenser(tokens);
    rows := [];
    assert tokens[0..] == tokens;
    RowsTurn(tokens, |tokens|);
    while true
      invariant disp.Valid() && disp.tokens == tokens && -1 <= disp.cursor < |tokens|
      invariant BuildRows(tokens) == rows + BuildRows(tokens[disp.cursor + 1..])
      decreases |tokens| - disp.cursor
    {
      RowsTurn(tokens, disp.cursor + 1);
      var more := disp.Next();
      if !more {
        break;
      }
      ghost var before := rows;
      var line := ConstructLine(disp);
      ConcatAssociates(before, [line], BuildRows(tokens[disp.cursor + 1..]));
      rows := rows + [line];
    }
    assert rows + [] == rows;
  }

  /** One turn of reading lines. */
  lemma {:induction false} RowsTurn(tokens: seq<Token>, i: nat)
    requires i <= |tokens|
    ensures BuildRows(tokens[i..]) ==
            if i == |tokens| then []
            else
              var line := BuildArgs(At([Str(tokens[i].text)], tokens, i));
              [line.json] + BuildRows(line.unread)
  {
    hide BuildArgs;
    if i < |tokens| {
      RestFrom(tokens, i);
    }
  }

  /** The directive names of a block, in whatever order the map yields them. */
  method DirectiveNames(m: map<string, seq<Token>>) returns (names: seq<string>)
    ensures multiset(names) == multiset(m.Keys)
  {
    names := [];
    var left := m.Keys;
    while left != {}
      invariant left <= m.Keys
      invariant multiset(names) == multiset(m.Keys - left)
      decreases |left|
    {
      var dir :| dir in left;
      assert m.Keys - (left - {dir}) == (m.Keys - left) + {dir};
      names := names + [dir];
      left := left - {dir};
    }
    assert m.Keys - left == m.Keys;
  }

  /** One server block; the order in which the map yields its keys does not matter. */
  method EncodeBlock(sb: ServerBlock) returns (b: EncodedServerBlock)
    ensures b == EncodedServerBlock(sb.keys, BodyOf(sb.tokens))
  {
    hide RowsByName, BuildRows, Lookup, Names.Blanks;
    var names := DirectiveNames(sb.tokens);
    Names.SortWithBlanks(|sb.tokens|, names, sb.tokens.Keys);
    var directives := Names.Sort(Names.Blanks(|sb.tokens|) + names);
    var body: seq<seq<Json>> := [];
    RowsByNameNone(sb.tokens);
    for i := 0 to |directives|
      invariant body == RowsByName(sb.tokens, directives[..i])
    {
      var rows := DirectiveRows(Lookup(sb.tokens, directives[i]));
      RowsByNameNext(sb.tokens, directives, i);
      body := body + rows;
    }
    assert directives[..|directives|] == directives;
    b := EncodedServerBlock(sb.keys, body);
  }

  lemma {:induction false} RowsByNameNext(m: map<string, seq<Token>>, names: seq<string>, i: nat)
    requires i < |names|
    ensures RowsByName(m, names[..i + 1]) == RowsByName(m, names[..i]) + BuildRows(Lookup(m, names[i]))
  {
    hide RowsByName, BuildRows, Lookup;
    RowsByNameSnoc(m, names[..i], names[i]);
    assert names[..i + 1] == names[..i] + [names[i]];
  }

  lemma {:induction false} RowsByNameNone(m: map<string, seq<Token>>)
    ensures RowsByName(m, []) == []
  {
  }

  ghost function EncodeAll(blocks: seq<ServerBlock>): seq<EncodedServerBlock> {
    seq(|blocks|, i requires 0 <= i < |blocks| => EncodedServerBlock(blocks[i].keys, BodyOf(blocks[i].tokens)))
  }

  /** The loop of ToJSON over the parsed blocks. */
  method EncodeBlocks(blocks: seq<ServerBlock>) returns (j: seq<EncodedServerBlock>)
    ensures j == EncodeAll(blocks)
  {
    hide BodyOf;
    j := [];
    for i := 0 to |blocks|
      invariant |j| == i
      invariant forall k :: 0 <= k < i ==> j[k] == EncodedServerBlock(blocks[k].keys, BodyOf(blocks[k].tokens))
    {
      var block := EncodeBlock(blocks[i]);
      j := j + [block];
    }
  }
}
