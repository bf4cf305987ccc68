/**
 The number of imports a parse is allowed (see Grammar) only decides whether the parse gets to its
 end: every allowance that is enough gives the same result. A snippet that imports itself is why
 none is enough for every input.
 */
module Allowance {
  import Conservation
  import opened Dispensing
  import opened Grammar
  import opened Lexer
  import opened Wrappers

  function MoreScan(r: Result<Scan>, d: nat): Result<Scan> {
    if r.Ok? then Ok(r.value.(imports := r.value.imports + d)) else r
  }

  function MoreBody(r: Result<Body>, d: nat): Result<Body> {
    if r.Ok? then Ok(r.value.(imports := r.value.imports + d)) else r
  }

  function MoreAddresses(r: Result<Addresses>, d: nat): Result<Addresses> {
    if r.Ok? then Ok(r.value.(imports := r.value.imports + d)) else r
  }

  function MoreBlock(r: Result<Block>, d: nat): Result<Block> {
    if r.Ok? then Ok(r.value.(imports := r.value.imports + d)) else r
  }

  lemma {:induction false} DirectiveAllowance(ctx: Context, snips: Snippets, s: Scan, nesting: nat, d: nat)
    ensures var r := ScanDirective(ctx, snips, s, nesting);
            r == OutOfImports || ScanDirective(ctx, snips, s.(imports := s.imports + d), nesting) == MoreScan(r, d)
    decreases s.imports, |s.unread|
  {
    hide Import, NewLine;
    if s.unread != [] {
      var t := s.unread[0];
      var t' := SubstToken(ctx, t);
      var s' := Scan(t', s.unread[1..], s.taken + [t'], s.imports);
      if t.text == "{" {
        DirectiveAllowance(ctx, snips, s', nesting + 1, d);
      } else if NewLine(s.last, t) && nesting == 0 {
      } else if t.text == "}" && nesting > 0 {
        DirectiveAllowance(ctx, snips, s', nesting - 1, d);
      } else if t.text == "}" {
      } else if t.text == "import" && NewLine(s.last, t) {
        var i := Import(ctx, snips, s.unread);
        if i.Ok? && s.imports > 0 {
          DirectiveAllowance(ctx, snips, s.(unread := i.value, imports := s.imports - 1), nesting, d);
        }
      } else {
        DirectiveAllowance(ctx, snips, s', nesting, d);
      }
    }
  }

  lemma {:induction false} BodyAllowance(ctx: Context, snips: Snippets, b: Body, d: nat)
    ensures var r := ScanBody(ctx, snips, b);
            r == OutOfImports || ScanBody(ctx, snips, b.(imports := b.imports + d)) == MoreBody(r, d)
    decreases b.imports, |b.unread|
  {
    hide Import, ScanDirective, ValidDirective, Subst;
    if b.unread != [] {
      var t := b.unread[0];
      if t.text == "}" {
      } else if t.text == "import" {
        var i := Import(ctx, snips, b.unread);
        if i.Ok? && b.imports > 0 {
          BodyAllowance(ctx, snips, b.(unread := i.value, imports := b.imports - 1), d);
        }
      } else if ValidDirective(ctx, Subst(ctx, t.text)) {
        var s := Scan(t, b.unread[1..], [t], b.imports);
        DirectiveAllowance(ctx, snips, s, 0, d);
        var r := ScanDirective(ctx, snips, s, 0);
        if r.Ok? {
          var seg := Segment(Subst(ctx, t.text), r.value.taken);
          BodyAllowance(ctx, snips, Body(Some(r.value.last), r.value.unread, b.segs + [seg], r.value.imports), d);
        }
      }
    }
  }

  lemma {:induction false} AddressesAllowance(ctx: Context, snips: Snippets, a: Addresses, d: nat)
    ensures var r := ScanAddresses(ctx, snips, a);
            r == OutOfImports || ScanAddresses(ctx, snips, a.(imports := a.imports + d)) == MoreAddresses(r, d)
    decreases a.imports, |a.at|
  {
    hide Import, NewLine, AddKey, OnNewLine;
    AddKeyMore(a, Subst(ctx, Val(a.at)), d);
    var tkn := Subst(ctx, Val(a.at));
    if tkn == "import" && OnNewLine(a.prev, a.at) {
      var i := Import(ctx, snips, a.at);
      if i.Ok? && a.imports > 0 {
        AddressesAllowance(ctx, snips, a.(at := i.value, imports := a.imports - 1), d);
      }
    } else if tkn != "{" {
      var b := AddKey(a, tkn);
      if |b.at| >= 2 && (b.expecting || !NewLine(b.at[0], b.at[1])) {
        AddressesAllowance(ctx, snips, b.(prev := Some(b.at[0]), at := b.at[1..]), d);
      }
    }
  }

  lemma {:induction false} AddKeyMore(a: Addresses, tkn: string, d: nat)
    ensures var b := AddKey(a, tkn);
            && AddKey(a.(imports := a.imports + d), tkn) == b.(imports := b.imports + d)
            && b.at == a.at && b.imports == a.imports
  {
  }

  lemma {:induction false} ContentsAllowance(ctx: Context, snips: Snippets, a: Addresses, d: nat)
    ensures var r := ScanContents(ctx, snips, a);
            r == OutOfImports || ScanContents(ctx, snips, a.(imports := a.imports + d)) == MoreBlock(r, d)
  {
    hide ScanBody;
    var b := if Val(a.at) == "{" then Body(Some(a.at[0]), a.at[1..], [], a.imports)
             else Body(a.prev, a.at, [], a.imports);
    BodyAllowance(ctx, snips, b, d);
  }

  lemma {:induction false} OneAllowance(ctx: Context, snips: Snippets, prev: Option<Token>, at: seq<Token>,
                                        imports: nat, d: nat)
    requires at != []
    ensures var r := ScanOne(ctx, snips, prev, at, imports);
            r == OutOfImports || ScanOne(ctx, snips, prev, at, imports + d) == MoreBlock(r, d)
  {
    hide ScanAddresses, ScanContents, ScanSnippet;
    var a := Addresses(prev, at, [], false, false, imports);
    AddressesAllowance(ctx, snips, a, d);
    var r := ScanAddresses(ctx, snips, a);
    if r.Ok? {
      ContentsAllowance(ctx, snips, r.value, d);
    }
  }

  lemma {:induction false} AllAllowance(ctx: Context, snips: Snippets, last: Option<Token>, unread: seq<Token>,
                                        blocks: seq<ServerBlock>, imports: nat, d: nat)
    ensures var r := ScanAll(ctx, snips, last, unread, blocks, imports);
            r.outcome == OutOfImports || ScanAll(ctx, snips, last, unread, blocks, imports + d) == r
    decreases imports, |unread|
  {
    hide ScanOne, Group;
    if unread != [] {
      OneAllowance(ctx, snips, last, unread, imports, d);
      var r := ScanOne(ctx, snips, last, unread, imports);
      if r.Ok? {
        var b := r.value;
        var blocks' := if b.keys == [] then blocks else blocks + [ServerBlock(b.keys, Group(b.segs))];
        AllAllowance(ctx, b.snips, b.last, b.unread, blocks', b.imports, d);
      }
    }
  }

  /** Whatever number of imports a parse is allowed, if it is enough for one then more change nothing. */
  lemma {:induction false} MoreImportsChangeNothing(ctx: Context, tokens: seq<Token>, imports: nat, more: nat)
    requires imports <= more && Parse(ctx, tokens, imports).outcome != OutOfImports
    ensures Parse(ctx, tokens, more) == Parse(ctx, tokens, imports)
  {
    hide ScanAll;
    AllAllowance(ctx, map[], None, tokens, [], imports, more - imports);
  }

  /**
   Without imports a parse ends in blocks or an error in every context, and how many imports it is
   allowed does not matter at all.
   */
  lemma {:induction false} ParseEnds(ctx: Context, tokens: seq<Token>, imports: nat)
    requires Conservation.ImportFree(ctx, tokens)
    ensures Parse(ctx, tokens, imports).outcome != OutOfImports
    ensures Parse(ctx, tokens, imports) == Parse(ctx, tokens, 0)
  {
    hide ScanAll;
    var _ := Conservation.ParseConserves(ctx, map[], None, tokens, [], 0);
    MoreImportsChangeNothing(ctx, tokens, 0, imports);
  }

  // ---------------------------------------------------------------------------------------------
  // A snippet that imports itself
  // ---------------------------------------------------------------------------------------------

  /** In a body, no number of imports is enough for it. */
  lemma {:induction false} SelfImportInBody(ctx: Context, snips: Snippets, b: Body, name: string, line: nat,
                                            close: Token)
    requires name in snips && snips[name] == [Token("", 2, "import"), Token("", 2, name)]
    requires name != "" && Breaks(name) == 0 && Subst(ctx, name) == name && close == Token("", line + 1, "}") &&
             line >= 2
    requires exists at: nat :: at <= line && b.unread == [Token("", at, "import"), Token("", at, name), close]
    ensures ScanBody(ctx, snips, b) == OutOfImports
    decreases b.imports
  {
    var at: nat :| at <= line && b.unread == [Token("", at, "import"), Token("", at, name), close];
    assert Breaks("import") == 0;
    assert Pattern(ctx, b.unread) == Some(name);
    var unread := snips[name] + b.unread[2..];
    assert Import(ctx, snips, b.unread) == Ok(unread);
    assert unread == [Token("", 2, "import"), Token("", 2, name), close];
    if b.imports > 0 {
      SelfImportInBody(ctx, snips, b.(unread := unread, imports := b.imports - 1), name, line, close);
    }
  }

  /** The tokens of an input that defines a snippet which imports itself, and imports it. */
  function SelfImport(): seq<Token> {
    [Token("", 1, "(s)"), Token("", 1, "{"), Token("", 2, "import"), Token("", 2, "s"), Token("", 3, "}")] +
    SelfImportSite()
  }

  function SelfImportSite(): seq<Token> {
    [Token("", 4, "host"), Token("", 4, "{"), Token("", 5, "import"), Token("", 5, "s"), Token("", 6, "}")]
  }

  lemma {:induction false} SelfImportStored(ctx: Context, imports: nat)
    requires forall s :: Subst(ctx, s) == s
    ensures ScanOne(ctx, map[], None, SelfImport(), imports) ==
            Ok(Block([], [], Some(Token("", 3, "}")), SelfImportSite(),
                     map["s" := [Token("", 2, "import"), Token("", 2, "s")]], imports))
  {
    hide ScanAddresses, ScanSnippet;
    var site, close := SelfImportSite(), Token("", 3, "}");
    var key, open, i, n := Token("", 1, "(s)"), Token("", 1, "{"), Token("", 2, "import"), Token("", 2, "s");
    var rest := [i, n, close] + site;
    assert SelfImport() == [key, open] + rest;
    NoBreaks("(s)");
    Conservation.LoneAddress(ctx, map[], None, "(s)", 1, rest, imports);
    var at := ([key, open] + rest)[1..];
    assert at[0] == open && at[1..] == rest;
    assert SnippetName(["(s)"]) == Some("s") by {
      assert "(s)"[1..2] == "s";
    }
    TwoStored(open, i, n, close, site);
  }

  lemma {:induction false} TwoStored(open: Token, i: Token, n: Token, close: Token, site: seq<Token>)
    requires i.text == "import" && n.text == "s" && close.text == "}"
    ensures ScanSnippet(Stored(open, [i, n, close] + site, []), 1) == Ok(Stored(close, site, [i, n]))
  {
    var rest := [i, n, close] + site;
    assert i.text[0] == 'i' && n.text[0] == 's';
    assert rest[1..] == [n, close] + site && ([n, close] + site)[1..] == [close] + site &&
           ([close] + site)[1..] == site;
    assert ScanSnippet(Stored(n, [close] + site, [i, n]), 1) == Ok(Stored(close, site, [i, n]));
    assert [i] + [n] == [i, n] && [] + [i] == [i];
    assert ScanSnippet(Stored(i, [n, close] + site, [i]), 1) == Ok(Stored(close, site, [i, n]));
  }

  lemma {:induction false} SelfImportUsed(ctx: Context, imports: nat)
    requires forall s :: Subst(ctx, s) == s
    ensures var snips := map["s" := [Token("", 2, "import"), Token("", 2, "s")]];
            ScanOne(ctx, snips, Some(Token("", 3, "}")), SelfImportSite(), imports) == OutOfImports
  {
    hide ScanAddresses, ScanBody;
    var snips := map["s" := [Token("", 2, "import"), Token("", 2, "s")]];
    var host, open, close := Token("", 4, "host"), Token("", 4, "{"), Token("", 6, "}");
    var rest := [Token("", 5, "import"), Token("", 5, "s"), close];
    assert SelfImportSite() == [host, open] + rest;
    NoBreaks("host");
    NoBreaks("s");
    Conservation.LoneAddress(ctx, snips, Some(Token("", 3, "}")), "host", 4, rest, imports);
    assert ([host, open] + rest)[1..] == [open] + rest && ([open] + rest)[1..] == rest;
    assert SnippetName(["host"]) == None by {
      assert "host"[0] == 'h';
    }
    SelfImportInBody(ctx, snips, Body(Some(open), rest, [], imports), "s", 5, close);
  }

  /** A snippet that imports itself, imported in a server block: no number of imports is enough for the parse. */
  lemma {:induction false} SelfImportNeverEnds(ctx: Context, imports: nat)
    requires forall s :: Subst(ctx, s) == s
    ensures Parse(ctx, SelfImport(), imports).outcome == OutOfImports
  {
    hide ScanOne, SelfImportSite;
    SelfImportStored(ctx, imports);
    SelfImportUsed(ctx, imports);
    SiteNotEmpty();
    var snips := map["s" := [Token("", 2, "import"), Token("", 2, "s")]];
    assert ScanAll(ctx, snips, Some(Token("", 3, "}")), SelfImportSite(), [], imports) == Parsed([], OutOfImports);
  }

  lemma {:induction false} SiteNotEmpty()
    ensures SelfImportSite() != [] && SelfImport() != []
  {
  }
}
