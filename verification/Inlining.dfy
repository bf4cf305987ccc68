/**
 What an import means (caddyfile/parse.go, doImport): the tokens it stands for are read in its place,
 in addresses, between directives and inside them; and when it is an error.
 */
module Inlining {
  import opened ClosingBrace
  import opened Conservation
  import opened Consumption
  import opened Dispensing
  import opened Grammar
  import opened Lexer
  import opened Pieces
  import opened Sequences
  import opened Wrappers

  /** The import has its one argument: on its line, not empty once substituted, and alone. */
  ghost predicate OneArgument(ctx: Context, at: seq<Token>) {
    && |at| >= 2 && SameLine(at[0], at[1]) && Subst(ctx, at[1].text) != ""
    && (|at| > 2 ==> !SameLine(at[1], at[2]))
  }

  /** The tokens that a name stands for: those of the snippet stored under it, else those of files. */
  ghost predicate StandsFor(ctx: Context, snips: Snippets, name: string, tokens: seq<Token>) {
    if name in snips then tokens == snips[name] else ImportedFiles(ctx, name) == Some(tokens)
  }

  /**
   An import is refused for its arguments if and only if it does not have exactly one, and fails if
   and only if that one, substituted, names no snippet and no files; else it is what that name stands
   for, before the tokens after the argument.
   */
  lemma {:induction false} ImportIff(ctx: Context, snips: Snippets, at: seq<Token>)
    ensures Import(ctx, snips, at) == Err(ImportArguments) <==> !OneArgument(ctx, at)
    ensures Import(ctx, snips, at) == Err(ImportFailed) <==>
            && OneArgument(ctx, at) && Subst(ctx, at[1].text) !in snips
            && ImportedFiles(ctx, Subst(ctx, at[1].text)) == None
    ensures forall tokens :: OneArgument(ctx, at) && StandsFor(ctx, snips, Subst(ctx, at[1].text), tokens) ==>
              Import(ctx, snips, at) == Ok(tokens + at[2..])
    ensures Import(ctx, snips, at) != OutOfImports
  {
  }

  /** An import directive with an argument that stands for some tokens, and what follows it. */
  ghost predicate Imports(ctx: Context, snips: Snippets, imp: Token, arg: Token, after: seq<Token>,
                          tokens: seq<Token>) {
    OneArgument(ctx, [imp, arg] + after) && StandsFor(ctx, snips, Subst(ctx, arg.text), tokens)
  }

  lemma {:induction false} ImportIs(ctx: Context, snips: Snippets, imp: Token, arg: Token, after: seq<Token>,
                                    tokens: seq<Token>)
    requires Imports(ctx, snips, imp, arg, after, tokens)
    ensures Import(ctx, snips, [imp, arg] + after) == Ok(tokens + after)
  {
    hide Import;
    var at := [imp, arg] + after;
    assert at[0] == imp && at[1] == arg && at[2..] == after;
    ImportIff(ctx, snips, at);
  }

  // ---------------------------------------------------------------------------------------------
  // The scans
  // ---------------------------------------------------------------------------------------------

  /** Between directives. */
  lemma {:induction false} BodyInlines(ctx: Context, snips: Snippets, b: Body, imp: Token, arg: Token,
                                       after: seq<Token>, tokens: seq<Token>)
    requires b.unread == [imp, arg] + after && imp.text == "import" && Imports(ctx, snips, imp, arg, after, tokens)
    ensures ScanBody(ctx, snips, b.(imports := b.imports + 1)) == ScanBody(ctx, snips, b.(unread := tokens + after))
  {
    hide Import, Imports;
    ImportIs(ctx, snips, imp, arg, after, tokens);
  }

  lemma {:induction false} BodyRefuses(ctx: Context, snips: Snippets, b: Body)
    requires b.unread != [] && b.unread[0].text == "import" && Import(ctx, snips, b.unread).Err?
    ensures ScanBody(ctx, snips, b) == Err(Import(ctx, snips, b.unread).error)
  {
    hide Import;
  }

  /** Inside a directive, where a brace is open and the import starts a line. */
  lemma {:induction false} DirectiveInlines(ctx: Context, snips: Snippets, s: Scan, nesting: nat, imp: Token,
                                            arg: Token, after: seq<Token>, tokens: seq<Token>)
    requires s.unread == [imp, arg] + after && imp.text == "import" && Imports(ctx, snips, imp, arg, after, tokens)
    requires nesting > 0 && NewLine(s.last, imp)
    ensures ScanDirective(ctx, snips, s.(imports := s.imports + 1), nesting) ==
            ScanDirective(ctx, snips, s.(unread := tokens + after), nesting)
  {
    hide Import, Imports, NewLine;
    ImportIs(ctx, snips, imp, arg, after, tokens);
  }

  lemma {:induction false} DirectiveRefuses(ctx: Context, snips: Snippets, s: Scan, nesting: nat)
    requires s.unread != [] && s.unread[0].text == "import" && Import(ctx, snips, s.unread).Err?
    requires nesting > 0 && NewLine(s.last, s.unread[0])
    ensures ScanDirective(ctx, snips, s, nesting) == Err(Import(ctx, snips, s.unread).error)
  {
    hide Import;
  }

  /** Anywhere else in a directive the word is an argument like any other. */
  lemma {:induction false} ImportAsArgument(ctx: Context, snips: Snippets, s: Scan, nesting: nat)
    requires s.unread != [] && s.unread[0].text == "import" && !NewLine(s.last, s.unread[0])
    ensures var t' := SubstToken(ctx, s.unread[0]);
            ScanDirective(ctx, snips, s, nesting) ==
            ScanDirective(ctx, snips, Scan(t', s.unread[1..], s.taken + [t'], s.imports), nesting)
  {
  }

  /** A token starts a line: there is none before it, or that one's line has ended. */
  predicate StartsLine(last: Option<Token>, t: Token) {
    last.None? || NewLine(last.value, t)
  }

  /** Among addresses, at the start of a line. */
  lemma {:induction false} AddressesInline(ctx: Context, snips: Snippets, a: Addresses, imp: Token, arg: Token,
                                           after: seq<Token>, tokens: seq<Token>)
    requires a.at == [imp, arg] + after && Subst(ctx, imp.text) == "import"
    requires StartsLine(a.prev, imp) && Imports(ctx, snips, imp, arg, after, tokens)
    ensures ScanAddresses(ctx, snips, a.(imports := a.imports + 1)) ==
            ScanAddresses(ctx, snips, a.(at := tokens + after))
  {
    hide Import, Imports, NewLine;
    ImportIs(ctx, snips, imp, arg, after, tokens);
  }

  lemma {:induction false} AddressesRefuse(ctx: Context, snips: Snippets, a: Addresses)
    requires a.at != [] && Subst(ctx, a.at[0].text) == "import" && StartsLine(a.prev, a.at[0])
    requires Import(ctx, snips, a.at).Err?
    ensures ScanAddresses(ctx, snips, a) == Err(Import(ctx, snips, a.at).error)
  {
    hide Import;
  }

  // ---------------------------------------------------------------------------------------------
  // Whole parses
  // ---------------------------------------------------------------------------------------------

  /** A closed piece is accounted for whatever comes after it. */
  lemma {:induction false} AccountedAnyway(ctx: Context, p: Piece, after: seq<Token>, after': seq<Token>)
    requires Accounted(ctx, p, after) && after != []
    ensures Accounted(ctx, p, after')
  {
    hide KeysIn, SnippetName, Accounts, Closes, EndsAfter, AllRead;
    hide Announces, NewLine, Subst;
    var at, at', n := PieceTokens(p) + after, PieceTokens(p) + after', |p.addr|;
    assert n < |PieceTokens(p)|;
    assert forall i :: 0 <= i <= n ==> at[i] == at'[i] == PieceTokens(p)[i];
    assert forall i :: 0 <= i <= n ==> at[..i] == at'[..i];
    if p.Site? {
      assert (p.raw + p.close + after)[0] == (p.raw + p.close + after')[0];
    }
  }

  lemma {:induction false} AccountedBeforeAnything(ctx: Context, snips: Snippets, pieces: seq<Piece>, after: seq<Token>,
                                                   after': seq<Token>)
    requires AccountedBefore(ctx, snips, pieces, after) && after != []
    ensures AccountedBefore(ctx, snips, pieces, after')
    decreases |pieces|
  {
    hide Accounted;
    if pieces != [] {
      AccountedAnyway(ctx, pieces[0], Tokens(pieces[1..]) + after, Tokens(pieces[1..]) + after');
      AccountedBeforeAnything(ctx, SnippetsAfter(pieces[0], snips), pieces[1..], after, after');
    }
  }

  /** Pieces that come before something else: closed, accounted for, and without imports. */
  ghost predicate Leading(ctx: Context, pieces: seq<Piece>, next: seq<Token>) {
    && next != [] && AccountedBefore(ctx, map[], pieces, next) && AllClosed(ctx, pieces)
    && ImportFree(ctx, Tokens(pieces))
  }

  /** Where the parser stands after some pieces. */
  function LastAfter(pieces: seq<Piece>): Option<Token> {
    if pieces == [] then None else LastSeen(pieces[|pieces| - 1], None)
  }

  lemma {:induction false} ParseAfter(ctx: Context, pieces: seq<Piece>, next: seq<Token>, rest: seq<Token>,
                                      imports: nat)
    requires Leading(ctx, pieces, next) && rest != []
    ensures Parse(ctx, Tokens(pieces) + rest, imports) ==
            ScanAll(ctx, SnippetsAll(pieces, map[]), LastAfter(pieces), rest, Blocks(ctx, pieces), imports)
  {
    hide ScanAll, AccountedBefore, AllClosed, ImportFree, Tokens, Blocks;
    AccountedBeforeAnything(ctx, map[], pieces, next, rest);
    var last := PiecesTaken(ctx, map[], None, pieces, rest, [], imports);
    assert [] + Blocks(ctx, pieces) == Blocks(ctx, pieces);
    LastIs(ctx, map[], pieces, rest, last);
  }

  /** The last piece before something else is a closed site or a snippet. */
  lemma {:induction false} LastClosed(ctx: Context, snips: Snippets, pieces: seq<Piece>, rest: seq<Token>)
    requires AccountedBefore(ctx, snips, pieces, rest) && rest != [] && pieces != []
    ensures var p := pieces[|pieces| - 1]; !p.Bare? && (p.Site? ==> p.close != [])
    decreases |pieces|
  {
    hide Accounted, Tokens, SnippetsAfter;
    if |pieces| == 1 {
      NotBare(ctx, pieces[0], Tokens(pieces[1..]) + rest);
    } else {
      assert pieces[1..][|pieces| - 2] == pieces[|pieces| - 1];
      LastClosed(ctx, SnippetsAfter(pieces[0], snips), pieces[1..], rest);
    }
  }

  lemma {:induction false} LastIs(ctx: Context, snips: Snippets, pieces: seq<Piece>, rest: seq<Token>,
                                  last: Option<Token>)
    requires AccountedBefore(ctx, snips, pieces, rest) && rest != []
    requires if pieces == [] then last == None else last == LastSeen(pieces[|pieces| - 1], last)
    ensures last == LastAfter(pieces)
  {
    hide AccountedBefore;
    if pieces != [] {
      LastClosed(ctx, snips, pieces, rest);
    }
  }

  lemma {:induction false} NotBare(ctx: Context, p: Piece, after: seq<Token>)
    requires Accounted(ctx, p, after) && after != []
    ensures !p.Bare? && (p.Site? ==> p.close != [])
  {
    hide AddressPart, KeysIn, SnippetName, Accounts, Closes, EndsAfter, AllRead;
  }

  /** Two streams on which one turn gives the same are parsed the same. */
  lemma {:induction false} SameTurn(ctx: Context, snips: Snippets, last: Option<Token>, at: seq<Token>, imports: nat,
                                    at': seq<Token>, imports': nat, blocks: seq<ServerBlock>)
    requires at != [] && at' != []
    requires ScanOne(ctx, snips, last, at, imports) == ScanOne(ctx, snips, last, at', imports')
    ensures ScanAll(ctx, snips, last, at, blocks, imports) == ScanAll(ctx, snips, last, at', blocks, imports')
  {
    hide ScanOne, Group;
  }

  /**
   Addresses without a brace among them, each and then another token on the line of the one before
   or announced by a comma.
   */
  ghost predicate Listed(ctx: Context, before: bool, addr: seq<Token>, next: Token) {
    && ImportFree(ctx, addr) && (forall t :: t in addr ==> Subst(ctx, t.text) != "{")
    && (forall i :: 0 < i < |addr| ==> Announces(ctx, before, addr[..i]) || !NewLine(addr[i - 1], addr[i]))
    && (addr != [] ==> Announces(ctx, before, addr) || !NewLine(addr[|addr| - 1], next))
  }

  /** Where the parser stands after some addresses. */
  function LastAddress(last: Option<Token>, addr: seq<Token>): Option<Token> {
    if addr == [] then last else Some(addr[|addr| - 1])
  }

  /** After addresses that do not end the list, the scan goes on with what comes next. */
  lemma {:induction false} AddressesReach(ctx: Context, snips: Snippets, a: Addresses, addr: seq<Token>,
                                          rest: seq<Token>)
    requires a.at == addr + rest && rest != [] && Listed(ctx, a.expecting, addr, rest[0])
    ensures ScanAddresses(ctx, snips, a) ==
            ScanAddresses(ctx, snips,
                          a.(prev := LastAddress(a.prev, addr), at := rest, keys := a.keys + KeysIn(ctx, addr),
                             expecting := Announces(ctx, a.expecting, addr)))
    decreases |addr|
  {
    hide ScanAddresses, KeyIn, KeysIn, Announces, NewLine, Subst, Listed;
    if addr == [] {
      NoKeys(ctx, a.expecting);
      assert a.keys + [] == a.keys && addr + rest == rest;
    } else {
      ListedRest(ctx, a.expecting, addr, rest[0]);
      assert a.at[0] == addr[0] && a.at[..1] == addr[..1] && a.at[1..] == addr[1..] + rest;
      assert |addr| > 1 ==> a.at[1] == addr[1];
      AddressPassed(ctx, snips, a);
      var c := AfterAddress(ctx, a);
      AddressesReach(ctx, snips, c, addr[1..], rest);
      AllKeys(ctx, addr);
      ConcatAssociates(a.keys, KeyIn(ctx, addr[0]), KeysIn(ctx, addr[1..]));
    }
  }

  lemma {:induction false} AllKeys(ctx: Context, addr: seq<Token>)
    requires addr != []
    ensures KeysIn(ctx, addr) == KeyIn(ctx, addr[0]) + KeysIn(ctx, addr[1..])
  {
  }

  /** What one address that is not the last does to a scan. */
  function AfterAddress(ctx: Context, a: Addresses): Addresses
    requires a.at != []
  {
    a.(prev := Some(a.at[0]), at := a.at[1..], keys := a.keys + KeyIn(ctx, a.at[0]),
       expecting := Announces(ctx, a.expecting, a.at[..1]))
  }

  lemma {:induction false} AddressPassed(ctx: Context, snips: Snippets, a: Addresses)
    requires |a.at| > 1 && Subst(ctx, a.at[0].text) != "{" && Subst(ctx, a.at[0].text) != "import"
    requires Announces(ctx, a.expecting, a.at[..1]) || !NewLine(a.at[0], a.at[1])
    ensures ScanAddresses(ctx, snips, a) == ScanAddresses(ctx, snips, AfterAddress(ctx, a))
  {
    hide ScanAddresses, AddKey, KeyIn, Announces, NewLine, Subst;
    AddressTakes(ctx, snips, a);
    AddKeyIs(ctx, a);
  }

  lemma {:induction false} ListedRest(ctx: Context, before: bool, addr: seq<Token>, next: Token)
    requires Listed(ctx, before, addr, next) && addr != []
    ensures Subst(ctx, addr[0].text) != "{" && Subst(ctx, addr[0].text) != "import"
    ensures Announces(ctx, before, addr[..1]) || !NewLine(addr[0], if |addr| > 1 then addr[1] else next)
    ensures Listed(ctx, Announces(ctx, before, addr[..1]), addr[1..], next)
    ensures Announces(ctx, before, addr) == Announces(ctx, Announces(ctx, before, addr[..1]), addr[1..])
  {
    hide Announces, NewLine, Subst;
    var rest, more := addr[1..], Announces(ctx, before, addr[..1]);
    forall i | 0 < i <= |addr|
      ensures Announces(ctx, before, addr[..i]) == Announces(ctx, more, rest[..i - 1])
    {
      AnnouncesFirst(ctx, before, addr, i);
    }
    assert addr[..|addr|] == addr && rest[..|rest|] == rest;
    forall i | 0 < i < |rest|
      ensures Announces(ctx, more, rest[..i]) || !NewLine(rest[i - 1], rest[i])
    {
      assert Announces(ctx, before, addr[..i + 1]) || !NewLine(addr[i], addr[i + 1]);
    }
  }

  /** Addresses that announce the start of a line announce anything. */
  lemma {:induction false} AnnouncesAnything(ctx: Context, last: Option<Token>, addr: seq<Token>, at: seq<Token>,
                                             next: Token)
    requires at != [] && Listed(ctx, false, addr, at[0]) && StartsLine(LastAddress(last, addr), at[0])
    ensures Listed(ctx, false, addr, next)
  {
    hide Announces, NewLine, Subst, ImportFree;
  }

  /** An import where a block could start, or where another address is announced, reads as what it stands for. */
  lemma {:induction false} ImportAtTop(ctx: Context, pieces: seq<Piece>, addr: seq<Token>, imp: Token, arg: Token,
                                       after: seq<Token>, tokens: seq<Token>, imports: nat)
    requires Leading(ctx, pieces, addr + [imp]) && Listed(ctx, false, addr, imp)
    requires StartsLine(LastAddress(LastAfter(pieces), addr), imp)
    requires Subst(ctx, imp.text) == "import" && Imports(ctx, SnippetsAll(pieces, map[]), imp, arg, after, tokens)
    requires tokens + after != []
    ensures Parse(ctx, Tokens(pieces) + (addr + ([imp, arg] + after)), imports + 1) ==
            Parse(ctx, Tokens(pieces) + (addr + (tokens + after)), imports)
  {
    hide ScanAll, ScanAddresses, ScanContents, ScanStored, SnippetName, Imports, Leading, Listed, Subst, NewLine;
    hide Tokens, LastAddress, KeysIn, Announces;
    var snips, last, x, y := SnippetsAll(pieces, map[]), LastAfter(pieces), [imp, arg] + after, tokens + after;
    ParseAfter(ctx, pieces, addr + [imp], addr + x, imports + 1);
    ParseAfter(ctx, pieces, addr + [imp], addr + y, imports);
    var a := Addresses(last, addr + x, [], false, false, imports + 1);
    AddressesReach(ctx, snips, a, addr, x);
    AnnouncesAnything(ctx, last, addr, x, y[0]);
    AddressesReach(ctx, snips, a.(at := addr + y, imports := imports), addr, y);
    var c := a.(prev := LastAddress(last, addr), at := x, keys := [] + KeysIn(ctx, addr),
               expecting := Announces(ctx, false, addr), imports := imports);
    AddressesInline(ctx, snips, c, imp, arg, after, tokens);
    SameTurn(ctx, snips, last, addr + x, imports + 1, addr + y, imports, Blocks(ctx, pieces));
  }

  /** The same when it stands for nothing at the end of the input: the parse ends there. */
  lemma {:induction false} ImportOfNothing(ctx: Context, pieces: seq<Piece>, imp: Token, arg: Token, imports: nat)
    requires Leading(ctx, pieces, [imp, arg]) && StartsLine(LastAfter(pieces), imp) && Subst(ctx, "") == ""
    requires Subst(ctx, imp.text) == "import" && Imports(ctx, SnippetsAll(pieces, map[]), imp, arg, [], [])
    ensures Parse(ctx, Tokens(pieces) + [imp, arg], imports + 1) == Parsed(Blocks(ctx, pieces), Ok(()))
  {
    hide ScanAddresses, ScanContents, ScanStored, SnippetName, Imports, Leading, Subst, NewLine, Tokens, Blocks;
    var snips, last, at := SnippetsAll(pieces, map[]), LastAfter(pieces), [imp, arg] + [];
    assert at == [imp, arg];
    ParseAfter(ctx, pieces, at, at, imports + 1);
    var a := Addresses(last, at, [], false, false, imports);
    AddressesInline(ctx, snips, a, imp, arg, [], []);
    var none: seq<Token> := [];
    assert none + none == none;
    NoAddresses(ctx, snips, a.(at := none));
  }

  lemma {:induction false} NoAddresses(ctx: Context, snips: Snippets, a: Addresses)
    requires a.at == [] && Subst(ctx, "") == "" && !a.expecting
    ensures ScanAddresses(ctx, snips, a) == Ok(a.(eof := true))
  {
  }

  /** An import that is refused there ends the parse, after the blocks before it. */
  lemma {:induction false} RefusedAtTop(ctx: Context, pieces: seq<Piece>, addr: seq<Token>, imp: Token,
                                        after: seq<Token>, imports: nat)
    requires Leading(ctx, pieces, addr + [imp]) && Listed(ctx, false, addr, imp)
    requires StartsLine(LastAddress(LastAfter(pieces), addr), imp) && Subst(ctx, imp.text) == "import"
    requires Import(ctx, SnippetsAll(pieces, map[]), [imp] + after).Err?
    ensures Parse(ctx, Tokens(pieces) + (addr + ([imp] + after)), imports) ==
            Parsed(Blocks(ctx, pieces), Err(Import(ctx, SnippetsAll(pieces, map[]), [imp] + after).error))
  {
    hide ScanAddresses, ScanContents, ScanStored, SnippetName, Import, Leading, Listed, Subst, NewLine, Tokens;
    hide Blocks, LastAddress, KeysIn, Announces;
    var snips, last, at := SnippetsAll(pieces, map[]), LastAfter(pieces), [imp] + after;
    ParseAfter(ctx, pieces, addr + [imp], addr + at, imports);
    var a := Addresses(last, addr + at, [], false, false, imports);
    AddressesReach(ctx, snips, a, addr, at);
    AddressesRefuse(ctx, snips, a.(prev := LastAddress(last, addr), at := at, keys := [] + KeysIn(ctx, addr),
                                   expecting := Announces(ctx, false, addr)));
  }

  // ---------------------------------------------------------------------------------------------
  // Inside a site
  // ---------------------------------------------------------------------------------------------

  /** The start of a site up to some place in its body: addresses, the opening brace, whole directives. */
  ghost predicate SiteStart(ctx: Context, addr: seq<Token>, open: Token, segs: seq<Segment>, raw: seq<Token>) {
    && open.text == "{" && AddressPart(ctx, false, addr + [open], |addr|) && SnippetName(KeysIn(ctx, addr)) == None
    && ImportFree(ctx, addr) && ImportFree(ctx, raw) && Covers(ctx, segs, raw) && LaterHeads(segs)
  }

  /** What becomes of a site whose body scans to something. */
  function SiteOf(keys: seq<string>, snips: Snippets, r: Result<Body>): Result<Block> {
    match r
    case Err(e) => Err(e)
    case OutOfImports => OutOfImports
    case Ok(c) =>
      if c.last.None? || c.last.value.text != "}" then Err(MissingBrace)
      else Ok(Block(keys, c.segs, c.last, c.unread, snips, c.imports))
  }

  /** One turn on a site is its body, from any place in it on. */
  lemma {:induction false} SiteReaches(ctx: Context, snips: Snippets, last: Option<Token>, addr: seq<Token>,
                                       open: Token, segs: seq<Segment>, raw: seq<Token>, rest: seq<Token>, imports: nat)
    requires SiteStart(ctx, addr, open, segs, raw) && (rest != [] ==> EndsAfter(segs, rest[0]))
    ensures ScanOne(ctx, snips, last, addr + ([open] + (raw + rest)), imports) ==
            SiteOf(KeysIn(ctx, addr), snips,
                   ScanBody(ctx, snips, Body(LastOf(segs, Some(open)), rest, segs, imports)))
  {
    hide ScanAddresses, ScanBody, AddressPart, KeysIn, SnippetName, Covers, LaterHeads, EndsAfter, ImportFree;
    var body, n := raw + rest, |addr|;
    var at := addr + ([open] + body);
    var a0 := Addresses(last, at, [], false, false, imports);
    AddressesThen(ctx, addr, open, body);
    assert at[..n] == addr && at[n..] == [open] + body;
    AddressesGoOn(ctx, snips, a0, n);
    var a := AfterAddresses(ctx, a0, n);
    assert [] + KeysIn(ctx, addr) == KeysIn(ctx, addr);
    assert a.at == [open] + body && a.at[0] == open && a.at[1..] == body;
    BodyGoesOn(ctx, snips, Body(Some(open), body, [], imports), segs, raw, rest);
    assert [] + segs == segs;
  }

  lemma {:induction false} AddressesThen(ctx: Context, addr: seq<Token>, open: Token, body: seq<Token>)
    requires AddressPart(ctx, false, addr + [open], |addr|)
    ensures AddressPart(ctx, false, addr + ([open] + body), |addr|)
  {
    hide Announces, NewLine, Subst;
    var at, at', n := addr + [open], addr + ([open] + body), |addr|;
    assert forall i :: 0 <= i <= n ==> at[i] == at'[i];
    assert forall i :: 0 <= i <= n ==> at[..i] == at'[..i];
  }

  /**
   An import between the directives of a site reads as what it stands for; as long as its first token
   would not be taken for an argument of the directive before, were it written there.
   */
  lemma {:induction false} ImportInSite(ctx: Context, pieces: seq<Piece>, addr: seq<Token>, open: Token,
                                        segs: seq<Segment>, raw: seq<Token>, imp: Token, arg: Token, after: seq<Token>,
                                        tokens: seq<Token>, imports: nat)
    requires SiteStart(ctx, addr, open, segs, raw) && Leading(ctx, pieces, addr + [open]) && imp.text == "import"
    requires Imports(ctx, SnippetsAll(pieces, map[]), imp, arg, after, tokens)
    requires EndsAfter(segs, imp) && (tokens + after != [] ==> EndsAfter(segs, (tokens + after)[0]))
    ensures Parse(ctx, Tokens(pieces) + (addr + ([open] + (raw + ([imp, arg] + after)))), imports + 1) ==
            Parse(ctx, Tokens(pieces) + (addr + ([open] + (raw + (tokens + after)))), imports)
  {
    hide ScanAll, ScanOne, ScanBody, SiteStart, Imports, Leading, EndsAfter, Tokens, Blocks, KeysIn;
    var snips, last := SnippetsAll(pieces, map[]), LastAfter(pieces);
    var x, y := [imp, arg] + after, tokens + after;
    var at, at' := addr + ([open] + (raw + x)), addr + ([open] + (raw + y));
    ParseAfter(ctx, pieces, addr + [open], at, imports + 1);
    ParseAfter(ctx, pieces, addr + [open], at', imports);
    SiteReaches(ctx, snips, last, addr, open, segs, raw, x, imports + 1);
    SiteReaches(ctx, snips, last, addr, open, segs, raw, y, imports);
    BodyInlines(ctx, snips, Body(LastOf(segs, Some(open)), x, segs, imports), imp, arg, after, tokens);
    SameTurn(ctx, snips, last, at, imports + 1, at', imports, Blocks(ctx, pieces));
  }

  /** What the body of a site comes to, read from any place in it, decides the parse when it is an error. */
  lemma {:induction false} SiteFails(ctx: Context, pieces: seq<Piece>, addr: seq<Token>, open: Token,
                                     segs: seq<Segment>, raw: seq<Token>, at: seq<Token>, imports: nat, e: Error)
    requires SiteStart(ctx, addr, open, segs, raw) && Leading(ctx, pieces, addr + [open])
    requires at != [] ==> EndsAfter(segs, at[0])
    requires SiteOf(KeysIn(ctx, addr), SnippetsAll(pieces, map[]),
                    ScanBody(ctx, SnippetsAll(pieces, map[]),
                             Body(LastOf(segs, Some(open)), at, segs, imports))) == Err(e)
    ensures Parse(ctx, Tokens(pieces) + (addr + ([open] + (raw + at))), imports) == Parsed(Blocks(ctx, pieces), Err(e))
  {
    hide ScanOne, ScanBody, SiteStart, Leading, EndsAfter, Tokens, Blocks, KeysIn, SiteOf;
    ParseAfter(ctx, pieces, addr + [open], addr + ([open] + (raw + at)), imports);
    SiteReaches(ctx, SnippetsAll(pieces, map[]), LastAfter(pieces), addr, open, segs, raw, at, imports);
  }

  /** An import that is refused between the directives of a site ends the parse. */
  lemma {:induction false} RefusedInSite(ctx: Context, pieces: seq<Piece>, addr: seq<Token>, open: Token,
                                         segs: seq<Segment>, raw: seq<Token>, at: seq<Token>, imports: nat)
    requires SiteStart(ctx, addr, open, segs, raw) && Leading(ctx, pieces, addr + [open])
    requires at != [] && at[0].text == "import" && EndsAfter(segs, at[0])
    requires Import(ctx, SnippetsAll(pieces, map[]), at).Err?
    ensures Parse(ctx, Tokens(pieces) + (addr + ([open] + (raw + at))), imports) ==
            Parsed(Blocks(ctx, pieces), Err(Import(ctx, SnippetsAll(pieces, map[]), at).error))
  {
    hide ScanBody, SiteStart, Import, Leading, EndsAfter, Tokens, Blocks, KeysIn;
    var snips := SnippetsAll(pieces, map[]);
    BodyRefuses(ctx, snips, Body(LastOf(segs, Some(open)), at, segs, imports));
    SiteFails(ctx, pieces, addr, open, segs, raw, at, imports, Import(ctx, snips, at).error);
  }

  /** A directive that has begun: its name and the tokens so far. */
  ghost predicate Begun(ctx: Context, segs: seq<Segment>, head: Token, tail: seq<Token>) {
    && head.text != "}" && head.text != "import" && ValidDirective(ctx, Subst(ctx, head.text)) && EndsAfter(segs, head)
    && ImportFree(ctx, tail) && Inside(ctx, head, tail, 0) && NeverBelow(tail, 0)
  }

  /** A body in the middle of a directive is the scan of that directive, from there on. */
  lemma {:induction false} BodyReaches(ctx: Context, snips: Snippets, b: Body, head: Token, tail: seq<Token>,
                                       x: seq<Token>, y: seq<Token>, imports: nat)
    requires Begun(ctx, b.segs, head, tail) && Depth(tail) > 0 && b.unread == [head] + (tail + x)
    requires var s := Scan(Before(ctx, head, tail, |tail|), x, [head] + SubstAll(ctx, tail), b.imports);
             ScanDirective(ctx, snips, s, Depth(tail)) ==
             ScanDirective(ctx, snips, s.(unread := y, imports := imports), Depth(tail))
    ensures ScanBody(ctx, snips, b) == ScanBody(ctx, snips, b.(unread := [head] + (tail + y), imports := imports))
  {
    hide ScanDirective, Inside, NeverBelow, Depth, ValidDirective, Subst, EndsAfter, ImportFree, Before;
    var b' := b.(unread := [head] + (tail + y), imports := imports);
    assert b.unread[0] == head && b.unread[1..] == tail + x && b'.unread[0] == head && b'.unread[1..] == tail + y;
    DirectiveGoesOn(ctx, snips, Scan(head, tail + x, [head], b.imports), 0, tail, x);
    DirectiveGoesOn(ctx, snips, Scan(head, tail + y, [head], imports), 0, tail, y);
    BodyByDirective(ctx, snips, b, b');
  }

  /** Bodies that differ only in what follows the name of their first directive. */
  lemma {:induction false} BodyByDirective(ctx: Context, snips: Snippets, b: Body, c: Body)
    requires b.unread != [] && c.unread != [] && b.unread[0] == c.unread[0] && b.segs == c.segs && b.last == c.last
    requires b.unread[0].text != "}" && b.unread[0].text != "import"
    requires var t := b.unread[0];
             ScanDirective(ctx, snips, Scan(t, b.unread[1..], [t], b.imports), 0) ==
             ScanDirective(ctx, snips, Scan(t, c.unread[1..], [t], c.imports), 0)
    ensures ScanBody(ctx, snips, b) == ScanBody(ctx, snips, c)
  {
    hide ScanDirective, ValidDirective, Subst;
  }

  /** An import inside a directive's block reads as what it stands for. */
  lemma {:induction false} ImportInDirective(ctx: Context, pieces: seq<Piece>, addr: seq<Token>, open: Token,
                                             segs: seq<Segment>, raw: seq<Token>, head: Token, tail: seq<Token>,
                                             imp: Token, arg: Token, after: seq<Token>, tokens: seq<Token>,
                                             imports: nat)
    requires SiteStart(ctx, addr, open, segs, raw) && Leading(ctx, pieces, addr + [open]) &&
             Begun(ctx, segs, head, tail)
    requires Depth(tail) > 0 && imp.text == "import" && NewLine(Before(ctx, head, tail, |tail|), imp)
    requires Imports(ctx, SnippetsAll(pieces, map[]), imp, arg, after, tokens)
    ensures Parse(ctx, Tokens(pieces) + (addr + ([open] + (raw + ([head] + (tail + ([imp, arg] + after)))))),
                  imports + 1) ==
            Parse(ctx, Tokens(pieces) + (addr + ([open] + (raw + ([head] + (tail + (tokens + after)))))), imports)
  {
    hide ScanAll, ScanOne, ScanBody, ScanDirective, SiteStart, Imports, Leading, EndsAfter, Tokens, Blocks, KeysIn;
    hide Inside, NeverBelow, Depth, ValidDirective, Subst, ImportFree, Before, NewLine;
    var snips, last := SnippetsAll(pieces, map[]), LastAfter(pieces);
    var x, y := [imp, arg] + after, tokens + after;
    var u, v := [head] + (tail + x), [head] + (tail + y);
    var at, at' := addr + ([open] + (raw + u)), addr + ([open] + (raw + v));
    ParseAfter(ctx, pieces, addr + [open], at, imports + 1);
    ParseAfter(ctx, pieces, addr + [open], at', imports);
    SiteReaches(ctx, snips, last, addr, open, segs, raw, u, imports + 1);
    SiteReaches(ctx, snips, last, addr, open, segs, raw, v, imports);
    var s := Scan(Before(ctx, head, tail, |tail|), x, [head] + SubstAll(ctx, tail), imports);
    DirectiveInlines(ctx, snips, s, Depth(tail), imp, arg, after, tokens);
    BodyReaches(ctx, snips, Body(LastOf(segs, Some(open)), u, segs, imports + 1), head, tail, x, y, imports);
    SameTurn(ctx, snips, last, at, imports + 1, at', imports, Blocks(ctx, pieces));
  }
  /** What a directive comes to, read from any place in it, decides the parse when it is an error. */
  lemma {:induction false} DirectiveFails(ctx: Context, pieces: seq<Piece>, addr: seq<Token>, open: Token,
                                          segs: seq<Segment>, raw: seq<Token>, head: Token, tail: seq<Token>,
                                          at: seq<Token>, imports: nat, e: Error)
    requires SiteStart(ctx, addr, open, segs, raw) && Leading(ctx, pieces, addr + [open]) &&
             Begun(ctx, segs, head, tail)
    requires Depth(tail) >= 0
    requires var s := Scan(Before(ctx, head, tail, |tail|), at, [head] + SubstAll(ctx, tail), imports);
             ScanDirective(ctx, SnippetsAll(pieces, map[]), s, Depth(tail)) == Err(e)
    ensures Parse(ctx, Tokens(pieces) + (addr + ([open] + (raw + ([head] + (tail + at))))), imports) ==
            Parsed(Blocks(ctx, pieces), Err(e))
  {
    hide ScanBody, ScanDirective, SiteStart, Leading, EndsAfter, Tokens, Blocks, KeysIn;
    hide Inside, NeverBelow, Depth, ValidDirective, Subst, ImportFree, Before, NewLine;
    var snips, u := SnippetsAll(pieces, map[]), [head] + (tail + at);
    assert u[0] == head && u[1..] == tail + at;
    DirectiveGoesOn(ctx, snips, Scan(head, tail + at, [head], imports), 0, tail, at);
    BodyFails(ctx, snips, Body(LastOf(segs, Some(open)), u, segs, imports));
    SiteFails(ctx, pieces, addr, open, segs, raw, u, imports, e);
  }

  /** An import that is refused inside a directive's block ends the parse. */
  lemma {:induction false} RefusedInDirective(ctx: Context, pieces: seq<Piece>, addr: seq<Token>, open: Token,
                                              segs: seq<Segment>, raw: seq<Token>, head: Token, tail: seq<Token>,
                                              at: seq<Token>, imports: nat)
    requires SiteStart(ctx, addr, open, segs, raw) && Leading(ctx, pieces, addr + [open]) &&
             Begun(ctx, segs, head, tail)
    requires Depth(tail) > 0 && at != [] && at[0].text == "import" && NewLine(Before(ctx, head, tail, |tail|), at[0])
    requires Import(ctx, SnippetsAll(pieces, map[]), at).Err?
    ensures Parse(ctx, Tokens(pieces) + (addr + ([open] + (raw + ([head] + (tail + at))))), imports) ==
            Parsed(Blocks(ctx, pieces), Err(Import(ctx, SnippetsAll(pieces, map[]), at).error))
  {
    hide ScanBody, ScanDirective, SiteStart, Import, Leading, Begun, Tokens, Blocks, Depth, Before, NewLine;
    var snips := SnippetsAll(pieces, map[]);
    DirectiveRefuses(ctx, snips, Scan(Before(ctx, head, tail, |tail|), at, [head] + SubstAll(ctx, tail), imports),
                     Depth(tail));
    DirectiveFails(ctx, pieces, addr, open, segs, raw, head, tail, at, imports, Import(ctx, snips, at).error);
  }

  /** A body whose next directive cannot be read cannot be read either. */
  lemma {:induction false} BodyFails(ctx: Context, snips: Snippets, b: Body)
    requires b.unread != [] && b.unread[0].text != "}" && b.unread[0].text != "import"
    requires ValidDirective(ctx, Subst(ctx, b.unread[0].text))
    requires ScanDirective(ctx, snips, Scan(b.unread[0], b.unread[1..], [b.unread[0]], b.imports), 0).Err?
    ensures ScanBody(ctx, snips, b) ==
            Err(ScanDirective(ctx, snips, Scan(b.unread[0], b.unread[1..], [b.unread[0]], b.imports), 0).error)
  {
    hide ScanDirective, ValidDirective, Subst;
  }
  // ---------------------------------------------------------------------------------------------
  // Snippets
  // ---------------------------------------------------------------------------------------------

  /** A block is a snippet if and only if its one key is in parentheses, and its name is what is inside. */
  lemma {:induction false} SnippetNameIff(keys: seq<string>, name: string)
    ensures SnippetName(keys) == Some(name) <==> keys == ["(" + name + ")"]
  {
    if |keys| == 1 && |keys[0]| >= 2 {
      var k, n := keys[0], |keys[0]|;
      assert k[0] == '(' && k[n - 1] == ')' ==> k == "(" + k[1..n - 1] + ")";
    }
    var k := "(" + name + ")";
    assert k[1..|k| - 1] == name;
  }

  /** Under its name a snippet stands for the tokens between its braces. */
  lemma {:induction false} SnippetStands(ctx: Context, pieces: seq<Piece>, k: nat)
    requires k < |pieces| && pieces[k].Snippet?
    requires forall i :: k < i < |pieces| && pieces[i].Snippet? ==> pieces[i].name != pieces[k].name
    ensures StandsFor(ctx, SnippetsAll(pieces, map[]), pieces[k].name, pieces[k].held)
  {
    SnippetKept(pieces, map[], k);
  }

  lemma {:induction false} SnippetKept(pieces: seq<Piece>, snips: Snippets, k: nat)
    requires k < |pieces| && pieces[k].Snippet?
    requires forall i :: k < i < |pieces| && pieces[i].Snippet? ==> pieces[i].name != pieces[k].name
    ensures var all := SnippetsAll(pieces, snips); pieces[k].name in all && all[pieces[k].name] == pieces[k].held
    decreases |pieces|
  {
    if k == 0 {
      OthersKept(pieces[1..], SnippetsAfter(pieces[0], snips), pieces[0].name);
    } else {
      SnippetKept(pieces[1..], SnippetsAfter(pieces[0], snips), k - 1);
    }
  }

  lemma {:induction false} OthersKept(pieces: seq<Piece>, snips: Snippets, name: string)
    requires name in snips && forall i :: 0 <= i < |pieces| && pieces[i].Snippet? ==> pieces[i].name != name
    ensures var all := SnippetsAll(pieces, snips); name in all && all[name] == snips[name]
    decreases |pieces|
  {
    if pieces != [] {
      OthersKept(pieces[1..], SnippetsAfter(pieces[0], snips), name);
    }
  }
}
