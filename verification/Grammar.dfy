/**
 What the server-block parser computes (caddyfile/parse.go), as functions on token sequences.

 The parser walks a token list with a cursor. Here the list is split at the cursor: `last` is the
 token under the cursor, `unread` the tokens after it. Imports replace unread tokens; since a file
 or a snippet may import itself, every function carries the number of imports still allowed and
 answers `OutOfImports` when it is used up.
 */
module Grammar {
  import opened Dispensing
  import opened Lexer
  import opened Wrappers

  datatype Error =
    | ExpectedAddress | UnexpectedEof | UnknownDirective | UnexpectedCloseBrace | MissingBrace
    | SnippetRedeclared | ImportArguments | ImportFailed

  datatype Result<T> = Ok(value: T) | Err(error: Error) | OutOfImports

  /**
   What the parser is given besides tokens: the substitution of environment references, the valid
   directives (None accepts all), and the tokens of the files an import pattern stands for
   (None when importing it fails).
   */
  datatype Context = Context(
    subst: string -> string,
    valid: Option<seq<string>>,
    files: string -> Option<seq<Token>>)

  type Snippets = map<string, seq<Token>>

  function Subst(ctx: Context, s: string): string {
    (ctx.subst)(s)
  }

  function ImportedFiles(ctx: Context, pattern: string): Option<seq<Token>> {
    (ctx.files)(pattern)
  }

  function SubstToken(ctx: Context, t: Token): Token {
    t.(text := Subst(ctx, t.text))
  }

  predicate ValidDirective(ctx: Context, dir: string) {
    ctx.valid.None? || dir in ctx.valid.value
  }

  // ---------------------------------------------------------------------------------------------
  // Imports
  // ---------------------------------------------------------------------------------------------

  /** The argument of the import directive at[0]: one non-empty token on the same line, and no more. */
  function Pattern(ctx: Context, at: seq<Token>): Option<string> {
    if |at| < 2 || !SameLine(at[0], at[1]) || Subst(ctx, at[1].text) == "" then None
    else if |at| > 2 && SameLine(at[1], at[2]) then None
    else Some(Subst(ctx, at[1].text))
  }

  /** What a pattern stands for: a stored snippet, else files. */
  function Imported(ctx: Context, snips: Snippets, pattern: string): Option<seq<Token>> {
    if pattern in snips then Some(snips[pattern]) else ImportedFiles(ctx, pattern)
  }

  /** The tokens from the import directive on, after the directive and its argument are replaced. */
  function Import(ctx: Context, snips: Snippets, at: seq<Token>): Result<seq<Token>> {
    match Pattern(ctx, at)
    case None => Err(ImportArguments)
    case Some(pattern) =>
      match Imported(ctx, snips, pattern)
      case None => Err(ImportFailed)
      case Some(tokens) => Ok(tokens + at[2..])
  }

  // ---------------------------------------------------------------------------------------------
  // Directives
  // ---------------------------------------------------------------------------------------------

  datatype Scan = Scan(last: Token, unread: seq<Token>, taken: seq<Token>, imports: nat)

  predicate Shrinks(imports: nat, unread: seq<Token>, imports': nat, unread': seq<Token>) {
    imports' < imports || (imports' == imports && |unread'| <= |unread|)
  }

  /** Collects the tokens of a directive until its line ends with all its braces closed. */
  function ScanDirective(ctx: Context, snips: Snippets, s: Scan, nesting: nat): (r: Result<Scan>)
    ensures r.Ok? ==> Shrinks(s.imports, s.unread, r.value.imports, r.value.unread)
    decreases s.imports, |s.unread|
  {
    if s.unread == [] then
      if nesting > 0 then Err(UnexpectedEof) else Ok(s)
    else
      var t := s.unread[0];
      var t' := SubstToken(ctx, t);
      var s' := Scan(t', s.unread[1..], s.taken + [t'], s.imports);
      if t.text == "{" then ScanDirective(ctx, snips, s', nesting + 1)
      else if NewLine(s.last, t) && nesting == 0 then Ok(s)
      else if t.text == "}" && nesting > 0 then ScanDirective(ctx, snips, s', nesting - 1)
      else if t.text == "}" then Err(UnexpectedCloseBrace)
      else if t.text == "import" && NewLine(s.last, t) then
        match Import(ctx, snips, s.unread)
        case Err(e) => Err(e)
        case OutOfImports => OutOfImports
        case Ok(unread) =>
          if s.imports == 0 then OutOfImports
          else ScanDirective(ctx, snips, s.(unread := unread, imports := s.imports - 1), nesting)
      else ScanDirective(ctx, snips, s', nesting)
  }

  /** A directive with its name after substitution and the tokens collected for it. */
  datatype Segment = Segment(dir: string, tokens: seq<Token>)

  datatype Body = Body(last: Option<Token>, unread: seq<Token>, segs: seq<Segment>, imports: nat)

  /** Collects directives up to the brace that closes the server block, or the end of input. */
  function ScanBody(ctx: Context, snips: Snippets, b: Body): (r: Result<Body>)
    ensures r.Ok? ==> Shrinks(b.imports, b.unread, r.value.imports, r.value.unread)
    ensures r.Ok? && b.unread != [] ==>
              r.value.imports < b.imports || |r.value.unread| < |b.unread|
    decreases b.imports, |b.unread|
  {
    if b.unread == [] then Ok(b)
    else
      var t := b.unread[0];
      if t.text == "}" then Ok(b.(last := Some(t), unread := b.unread[1..]))
      else if t.text == "import" then
        match Import(ctx, snips, b.unread)
        case Err(e) => Err(e)
        case OutOfImports => OutOfImports
        case Ok(unread) =>
          if b.imports == 0 then OutOfImports
          else ScanBody(ctx, snips, b.(unread := unread, imports := b.imports - 1))
      else
        var dir := Subst(ctx, t.text);
        if !ValidDirective(ctx, dir) then Err(UnknownDirective)
        else
          match ScanDirective(ctx, snips, Scan(t, b.unread[1..], [t], b.imports), 0)
          case Err(e) => Err(e)
          case OutOfImports => OutOfImports
          case Ok(s) =>
            ScanBody(ctx, snips, Body(Some(s.last), s.unread, b.segs + [Segment(dir, s.taken)], s.imports))
  }

  /** Turns that end a body. */
  lemma {:induction false} BodyEnds(ctx: Context, snips: Snippets, b: Body)
    ensures b.unread == [] ==> ScanBody(ctx, snips, b) == Ok(b)
    ensures b.unread != [] && b.unread[0].text == "}" ==>
              ScanBody(ctx, snips, b) == Ok(b.(last := Some(b.unread[0]), unread := b.unread[1..]))
  {
  }

  // ---------------------------------------------------------------------------------------------
  // Addresses
  // ---------------------------------------------------------------------------------------------

  /** `at` holds the tokens from the cursor on; it may be empty after an import of nothing. */
  datatype Addresses = Addresses(
    prev: Option<Token>, at: seq<Token>, keys: seq<string>, expecting: bool, eof: bool, imports: nat)

  function Val(at: seq<Token>): string {
    if at == [] then "" else at[0].text
  }

  predicate OnNewLine(prev: Option<Token>, at: seq<Token>) {
    prev.None? || (at != [] && NewLine(prev.value, at[0]))
  }

  function AddKey(a: Addresses, tkn: string): Addresses {
    if tkn == "" then a
    else if tkn[|tkn| - 1] == ',' then a.(keys := a.keys + [tkn[..|tkn| - 1]], expecting := true)
    else a.(keys := a.keys + [tkn], expecting := false)
  }

  function ScanAddresses(ctx: Context, snips: Snippets, a: Addresses): (r: Result<Addresses>)
    ensures r.Ok? ==> Shrinks(a.imports, a.at, r.value.imports, r.value.at)
    decreases a.imports, |a.at|
  {
    var tkn := Subst(ctx, Val(a.at));
    if tkn == "import" && OnNewLine(a.prev, a.at) then
      match Import(ctx, snips, a.at)
      case Err(e) => Err(e)
      case OutOfImports => OutOfImports
      case Ok(at) =>
        if a.imports == 0 then OutOfImports
        else ScanAddresses(ctx, snips, a.(at := at, imports := a.imports - 1))
    else if tkn == "{" then
      if a.expecting then Err(ExpectedAddress) else Ok(a)
    else
      var b := AddKey(a, tkn);
      if |b.at| < 2 then
        if b.expecting then Err(UnexpectedEof) else Ok(b.(eof := true))
      else
        var c := b.(prev := Some(b.at[0]), at := b.at[1..]);
        if !c.expecting && NewLine(b.at[0], b.at[1]) then Ok(c) else ScanAddresses(ctx, snips, c)
  }

  // ---------------------------------------------------------------------------------------------
  // Snippets, blocks and whole inputs
  // ---------------------------------------------------------------------------------------------

  /** A snippet is a block with a single key in parentheses; its name is what they enclose. */
  function SnippetName(keys: seq<string>): Option<string> {
    if |keys| == 1 && |keys[0]| >= 2 && keys[0][0] == '(' && keys[0][|keys[0]| - 1] == ')' then
      Some(keys[0][1..|keys[0]| - 1])
    else None
  }

  datatype Stored = Stored(last: Token, unread: seq<Token>, tokens: seq<Token>)

  /** Collects tokens up to the brace that matches the opening one; `count` braces are open. */
  function ScanSnippet(s: Stored, count: nat): (r: Result<Stored>)
    requires count >= 1
    ensures r.Ok? ==> |r.value.unread| <= |s.unread|
    decreases |s.unread|
  {
    if s.unread == [] then Err(MissingBrace)
    else
      var t := s.unread[0];
      if t.text == "}" && count == 1 then Ok(Stored(t, s.unread[1..], s.tokens))
      else
        var count' := if t.text == "}" then count - 1 else if t.text == "{" then count + 1 else count;
        ScanSnippet(Stored(t, s.unread[1..], s.tokens + [t]), count')
  }

  /** One turn of the parser: a server block, or a snippet, which leaves no keys. */
  datatype Block = Block(
    keys: seq<string>, segs: seq<Segment>, last: Option<Token>, unread: seq<Token>, snips: Snippets, imports: nat)

  function ScanContents(ctx: Context, snips: Snippets, a: Addresses): (r: Result<Block>)
    ensures r.Ok? ==> Shrinks(a.imports, a.at, r.value.imports, r.value.unread)
    ensures r.Ok? && a.at != [] ==> r.value.imports < a.imports || |r.value.unread| < |a.at|
  {
    var open := Val(a.at) == "{";
    var b := if open then Body(Some(a.at[0]), a.at[1..], [], a.imports) else Body(a.prev, a.at, [], a.imports);
    match ScanBody(ctx, snips, b)
    case Err(e) => Err(e)
    case OutOfImports => OutOfImports
    case Ok(c) =>
      if open && (c.last.None? || c.last.value.text != "}") then Err(MissingBrace)
      else Ok(Block(a.keys, c.segs, c.last, c.unread, snips, c.imports))
  }

  function ScanStored(snips: Snippets, a: Addresses, name: string): (r: Result<Block>)
    ensures r.Ok? ==> r.value.imports == a.imports && |r.value.unread| < |a.at|
  {
    if name in snips then Err(SnippetRedeclared)
    else if Val(a.at) != "{" then Err(MissingBrace)
    else
      match ScanSnippet(Stored(a.at[0], a.at[1..], []), 1)
      case Err(e) => Err(e)
      case OutOfImports => OutOfImports
      case Ok(s) => Ok(Block([], [], Some(s.last), s.unread, snips[name := s.tokens], a.imports))
  }

  function ScanOne(ctx: Context, snips: Snippets, prev: Option<Token>, at: seq<Token>, imports: nat): (r: Result<Block>)
    requires at != []
    ensures r.Ok? ==> r.value.imports < imports || (r.value.imports == imports && |r.value.unread| < |at|)
  {
    match ScanAddresses(ctx, snips, Addresses(prev, at, [], false, false, imports))
    case Err(e) => Err(e)
    case OutOfImports => OutOfImports
    case Ok(a) =>
      if a.eof then Ok(Block(a.keys, [], if a.at == [] then None else Some(a.at[0]), [], snips, a.imports))
      else match SnippetName(a.keys)
           case Some(name) => ScanStored(snips, a, name)
           case None => ScanContents(ctx, snips, a)
  }

  /** Tokens grouped by directive name, as the parser hands them on. */
  function Group(segs: seq<Segment>): map<string, seq<Token>> {
    if segs == [] then map[]
    else
      var m := Group(segs[..|segs| - 1]);
      var s := segs[|segs| - 1];
      m[s.dir := (if s.dir in m then m[s.dir] else []) + s.tokens]
  }

  datatype ServerBlock = ServerBlock(keys: seq<string>, tokens: map<string, seq<Token>>)

  /** The blocks read so far, and how the parse ended. */
  datatype Parsed = Parsed(blocks: seq<ServerBlock>, outcome: Result<()>)

  function ScanAll(ctx: Context, snips: Snippets, last: Option<Token>, unread: seq<Token>,
                   blocks: seq<ServerBlock>, imports: nat): Parsed
    decreases imports, |unread|
  {
    if unread == [] then Parsed(blocks, Ok(()))
    else
      match ScanOne(ctx, snips, last, unread, imports)
      case Err(e) => Parsed(blocks, Err(e))
      case OutOfImports => Parsed(blocks, OutOfImports)
      case Ok(b) =>
        var blocks' := if b.keys == [] then blocks else blocks + [ServerBlock(b.keys, Group(b.segs))];
        ScanAll(ctx, b.snips, b.last, b.unread, blocks', b.imports)
  }

  /** The parse of a token list. */
  function Parse(ctx: Context, tokens: seq<Token>, imports: nat): Parsed {
    ScanAll(ctx, map[], None, tokens, [], imports)
  }
}
