/**
 The server-block parser (caddyfile/parse.go): an object that walks tokens with a cursor, edits
 them in place, splices imports into them and stores snippets. Each method is proved to do what the
 functions of Grammar say, on the slice memory of TokenSlices.
 */
module Parser {
  import opened Dispensing
  import opened Grammar
  import opened Lexer
  import opened Sequences
  import opened TokenSlices
  import opened Wrappers

  /** What the next token means in the scope of a directive. */
  datatype Look = Ended | NewDirective | Opens | Closes | Stray | Importing | Plain

  function LookAt(last: Token, unread: seq<Token>, nesting: nat): Look {
    if unread == [] then Ended
    else if unread[0].text == "{" then Opens
    else if NewLine(last, unread[0]) && nesting == 0 then NewDirective
    else if unread[0].text == "}" then if nesting > 0 then Closes else Stray
    else if unread[0].text == "import" && NewLine(last, unread[0]) then Importing
    else Plain
  }

  predicate TakesToken(look: Look) {
    look.Opens? || look.Closes? || look.Plain?
  }

  function NestingAfter(look: Look, nesting: nat): (n: nat)
    requires look.Closes? ==> nesting > 0
  {
    if look.Opens? then nesting + 1 else if look.Closes? then nesting - 1 else nesting
  }

  /** The scan after its next token was taken. */
  function AfterTake(ctx: Context, s: Scan): Scan
    requires s.unread != []
  {
    var t' := SubstToken(ctx, s.unread[0]);
    Scan(t', s.unread[1..], s.taken + [t'], s.imports)
  }

  /** Turns that end the directive's scope. */
  lemma {:induction false} ScopeEnds(ctx: Context, snips: Snippets, s: Scan, nesting: nat)
    ensures var look := LookAt(s.last, s.unread, nesting);
            && (look.Ended? ==>
                  ScanDirective(ctx, snips, s, nesting) == if nesting > 0 then Err(UnexpectedEof) else Ok(s))
            && (look.NewDirective? ==> nesting == 0 && ScanDirective(ctx, snips, s, nesting) == Ok(s))
            && (look.Stray? ==> ScanDirective(ctx, snips, s, nesting) == Err(UnexpectedCloseBrace))
  {
  }

  /** A turn that takes a token. */
  lemma {:induction false} ScopeTakes(ctx: Context, snips: Snippets, s: Scan, nesting: nat)
    requires TakesToken(LookAt(s.last, s.unread, nesting))
    ensures ScanDirective(ctx, snips, s, nesting) ==
            ScanDirective(ctx, snips, AfterTake(ctx, s), NestingAfter(LookAt(s.last, s.unread, nesting), nesting))
  {
  }

  /** A turn that imports. */
  lemma {:induction false} ScopeImports(ctx: Context, snips: Snippets, s: Scan, nesting: nat)
    requires LookAt(s.last, s.unread, nesting).Importing?
    ensures ScanDirective(ctx, snips, s, nesting) ==
            match Import(ctx, snips, s.unread)
            case Err(e) => Err(e)
            case OutOfImports => OutOfImports
            case Ok(unread) =>
              if s.imports == 0 then OutOfImports
              else ScanDirective(ctx, snips, s.(unread := unread, imports := s.imports - 1), nesting)
  {
  }

  /** The tokens of a block with more tokens collected for a directive. */
  function Add(m: map<string, seq<Token>>, dir: string, ts: seq<Token>): map<string, seq<Token>> {
    m[dir := (if dir in m then m[dir] else []) + ts]
  }

  lemma {:induction false} LookUnread(last: Token, unread: seq<Token>, nesting: nat)
    ensures !LookAt(last, unread, nesting).Ended? ==> unread != []
  {
  }

  lemma {:induction false} LookCloses(last: Token, unread: seq<Token>, nesting: nat)
    ensures LookAt(last, unread, nesting).Closes? ==> nesting > 0
  {
  }

  lemma {:induction false} NothingTaken(base: seq<Token>, taken: seq<Token>)
    ensures base + taken[|taken|..] == base
  {
  }

  /** How a turn of a loop goes on. */
  datatype Turn = Again(nesting: nat) | Stop | Fail(r: Result<()>)

  ghost predicate Fails<T>(r: Result<()>, spec: Result<T>) {
    (r.Err? && spec == Err(r.error)) || (r.OutOfImports? && spec == OutOfImports)
  }

  lemma {:induction false} Regrouped(base: seq<Token>, taken: seq<Token>, taken': seq<Token>)
    requires taken <= taken'
    ensures base + taken + taken'[|taken|..] == base + taken'
  {
  }

  class Parser {
    const ctx: Context
    const store: TokenStore
    var cursor: int
    var keys: seq<string>
    var blockTokens: map<string, seq<Token>>
    var eof: bool
    /** The imports still allowed. */
    var imports: nat

    ghost predicate Valid()
      reads this, store, store.repr
    {
      store.Valid() && this !in store.repr && -1 <= cursor <= |store.toks|
    }

    constructor (ctx: Context, tokens: seq<Token>, imports: nat)
      ensures Valid() && this.ctx == ctx && this.imports == imports && cursor == -1 && !eof
      ensures fresh(store) && fresh(store.repr) && store.toks == tokens && store.snips == map[]
    {
      this.ctx := ctx;
      store := new TokenStore(tokens);
      cursor := -1;
      keys, blockTokens, eof := [], map[], false;
      this.imports := imports;
    }

    /** The token under the cursor. */
    ghost function Last(): Option<Token>
      reads this, store
    {
      if 0 <= cursor < |store.toks| then Some(store.toks[cursor]) else None
    }

    /** The tokens after the cursor. */
    ghost function Unread(): seq<Token>
      reads this, store
    {
      if -1 <= cursor < |store.toks| then store.toks[cursor + 1..] else []
    }

    /** The text under the cursor, empty when there is none. */
    function Val(): (s: string)
      reads this, store, store.repr
      requires Valid()
      ensures s == if 0 <= cursor < |store.toks| then store.toks[cursor].text else ""
    {
      if cursor < 0 || cursor >= store.Len() then "" else store.Get(cursor).text
    }

    function IsNewLine(): (b: bool)
      reads this, store, store.repr
      requires Valid()
      ensures b <==> cursor < 1 || (cursor < |store.toks| && NewLine(store.toks[cursor - 1], store.toks[cursor]))
    {
      if cursor < 1 then true
      else if cursor > store.Len() - 1 then false
      else NewLine(store.Get(cursor - 1), store.Get(cursor))
    }

    method Next() returns (loaded: bool)
      requires Valid()
      modifies this`cursor
      ensures Valid()
      ensures loaded <==> old(cursor) + 1 < |store.toks|
      ensures cursor == if loaded then old(cursor) + 1 else old(cursor)
    {
      if cursor < store.Len() - 1 {
        cursor := cursor + 1;
        return true;
      }
      return false;
    }

    method NextArg() returns (loaded: bool)
      requires Valid() && cursor >= 0
      modifies this`cursor
      ensures Valid()
      ensures loaded <==> old(cursor) + 1 < |store.toks| &&
                          SameLine(store.toks[old(cursor)], store.toks[old(cursor) + 1])
      ensures cursor == if loaded then old(cursor) + 1 else old(cursor)
    {
      if cursor >= store.Len() {
        return false;
      }
      if cursor < store.Len() - 1 {
        var a, b := store.Get(cursor), store.Get(cursor + 1);
        if a.file == b.file && a.line + Breaks(a.text) == b.line {
          cursor := cursor + 1;
          return true;
        }
      }
      return false;
    }

    /** Reads the argument of the import directive under the cursor, which then is under the cursor. */
    method ReadPattern() returns (pattern: Option<string>)
      requires Valid() && cursor >= 0
      modifies this`cursor
      ensures Valid()
      ensures pattern == Pattern(ctx, store.toks[old(cursor)..])
      ensures pattern.Some? ==> cursor == old(cursor) + 1 && cursor < |store.toks|
    {
      hide SameLine, Subst, TokenStore.Valid;
      ghost var at := store.toks[cursor..];
      assert |at| > 1 ==> at[1] == store.toks[cursor + 1];
      assert |at| > 2 ==> at[2] == store.toks[cursor + 2];
      var arg := NextArg();
      if !arg {
        return None;
      }
      var importPattern := Subst(ctx, Val());
      if importPattern == "" {
        return None;
      }
      arg := NextArg();
      if arg {
        return None;
      }
      return Some(importPattern);
    }

    /** The tokens a pattern stands for: a stored snippet's own slice, or a new slice of file tokens. */
    method FindImported(pattern: string) returns (r: Option<Slice>)
      requires Valid()
      ensures match Imported(ctx, store.snips, pattern)
              case None => r == None
              case Some(tokens) =>
                && r.Some? && store.Importable(r.value) && View(r.value) == tokens
                && (r.value.arr in store.repr || fresh(r.value.arr))
    {
      hide View;
      if pattern in store.snippets {
        assert store.Holds(pattern);
        return Some(store.snippets[pattern]);
      }
      match ImportedFiles(ctx, pattern)
      case None => return None;
      case Some(tokens) =>
        var none := Empty();
        var importedTokens := Append(none, tokens);
        assert [] + tokens == tokens;
        return Some(importedTokens);
    }

    /**
     Replaces the import directive under the cursor and its argument by what is imported. The tokens
     before the cursor stay, the cursor is back where the directive was, and no snippet changes.
     */
    method DoImport() returns (r: Result<()>)
      requires Valid() && cursor >= 0
      modifies this`cursor, this`imports, store, store.repr
      ensures Valid() && fresh(store.repr - old(store.repr)) && store.snips == old(store.snips)
      ensures match Import(ctx, store.snips, old(store.toks[cursor..]))
              case Err(e) => r == Err(e)
              case OutOfImports => r == OutOfImports
              case Ok(at) =>
                if old(imports) == 0 then r == OutOfImports
                else
                  && r == Ok(()) && imports == old(imports) - 1 && cursor == old(cursor)
                  && store.toks == old(store.toks)[..cursor] + at
    {
      hide Pattern, Imported, View, TokenStore.Importable;
      ghost var toks, c := store.toks, cursor;
      var pattern := ReadPattern();
      if pattern.None? {
        return Err(ImportArguments);
      }
      assert toks[c..][2..] == toks[c + 2..];
      var found := FindImported(pattern.value);
      if found.None? {
        return Err(ImportFailed);
      }
      if imports == 0 {
        return OutOfImports;
      }
      store.Splice(cursor + 1, found.value);
      imports := imports - 1;
      cursor := cursor - 1;
      return Ok(());
    }

    /** Substitutes the token under the cursor in place and collects it for a directive. */
    method Take(dir: string)
      requires Valid() && 0 <= cursor < |store.toks| && dir in blockTokens
      modifies this`blockTokens, store, store.repr
      ensures Valid() && store.repr == old(store.repr) && store.snips == old(store.snips)
      ensures var t' := SubstToken(ctx, old(store.toks)[cursor]);
              && store.toks == old(store.toks)[cursor := t']
              && blockTokens == old(blockTokens)[dir := old(blockTokens)[dir] + [t']]
    {
      hide View;
      store.SetText(cursor, Subst(ctx, Val()));
      blockTokens := blockTokens[dir := blockTokens[dir] + [store.Get(cursor)]];
    }

    /** What is to come of the directive's scope, given what was taken and how many braces are open. */
    ghost function Scope(taken: seq<Token>, nesting: nat): Result<Scan>
      reads this, store
      requires 0 <= cursor < |store.toks|
    {
      ScanDirective(ctx, store.snips, Scan(store.toks[cursor], store.toks[cursor + 1..], taken, imports), nesting)
    }

    /** An import inside a directive's scope: the cursor goes back to the token before it. */
    method ImportInScope(ghost taken: seq<Token>, ghost nesting: nat) returns (r: Result<()>)
      requires Valid() && 1 <= cursor < |store.toks|
      modifies this`cursor, this`imports, store, store.repr
      ensures Valid() && fresh(store.repr - old(store.repr)) && store.snips == old(store.snips)
      ensures match Import(ctx, store.snips, old(store.toks[cursor..]))
              case Err(e) => r == Err(e)
              case OutOfImports => r == OutOfImports
              case Ok(unread) =>
                if old(imports) == 0 then r == OutOfImports
                else
                  && r == Ok(()) && imports == old(imports) - 1 && 0 <= cursor < |store.toks|
                  && store.toks[cursor] == old(store.toks[cursor - 1]) && store.toks[cursor + 1..] == unread
    {
      hide Import, TokenStore.Valid;
      ghost var toks, c := store.toks, cursor;
      r := DoImport();
      if r == Ok(()) {
        assert store.toks[..c][c - 1] == toks[..c][c - 1];
        cursor := cursor - 1;
      }
    }

    /** Takes the token under the cursor as the next of a directive's tokens. */
    method TakeInScope(dir: string, ghost taken: seq<Token>)
      requires Valid() && 0 <= cursor < |store.toks| && dir in blockTokens
      modifies this`blockTokens, store, store.repr
      ensures Valid() && store.repr == old(store.repr) && store.snips == old(store.snips)
      ensures |store.toks| == old(|store.toks|) && store.toks[cursor + 1..] == old(store.toks[cursor + 1..])
      ensures var t' := SubstToken(ctx, old(store.toks)[cursor]);
              && store.toks[cursor] == t'
              && blockTokens == old(blockTokens)[dir := old(blockTokens)[dir] + (taken + [t'])[|taken|..]]
    {
      hide TokenStore.Valid;
      ghost var t' := SubstToken(ctx, store.toks[cursor]);
      Take(dir);
      assert (taken + [t'])[|taken|..] == [t'];
    }

    /** Loads the next token and says what it means; a token that starts another directive is put back. */
    method LookAhead(nesting: nat) returns (look: Look)
      requires Valid() && 0 <= cursor < |store.toks|
      modifies this`cursor
      ensures Valid() && look == LookAt(store.toks[old(cursor)], store.toks[old(cursor) + 1..], nesting)
      ensures cursor == if look.Ended? || look.NewDirective? then old(cursor) else old(cursor) + 1
      ensures 0 <= cursor < |store.toks|
    {
      hide NewLine, TokenStore.Valid;
      RestAfter(store.toks, cursor);
      var more := Next();
      if !more {
        return Ended;
      }
      if Val() == "{" {
        return Opens;
      } else if IsNewLine() && nesting == 0 {
        cursor := cursor - 1;
        return NewDirective;
      } else if Val() == "}" && nesting > 0 {
        return Closes;
      } else if Val() == "}" && nesting == 0 {
        return Stray;
      } else if Val() == "import" && IsNewLine() {
        return Importing;
      }
      return Plain;
    }

    /** The parser stands on the first unread token of a scan. */
    ghost predicate StandsAt(s: Scan)
      reads this, store
    {
      1 <= cursor < |store.toks| && store.toks[cursor - 1] == s.last && store.toks[cursor..] == s.unread &&
      imports == s.imports
    }

    /** A turn that takes the token under the cursor. */
    method TakeTurn(dir: string, look: Look, nesting: nat, ghost s: Scan) returns (n: nat)
      requires Valid() && StandsAt(s) && dir in blockTokens
      requires look == LookAt(s.last, s.unread, nesting) && TakesToken(look)
      modifies this`blockTokens, store, store.repr
      ensures Valid() && store.repr == old(store.repr) && store.snips == old(store.snips)
      ensures |store.toks| == old(|store.toks|)
      ensures var t := SubstToken(ctx, s.unread[0]);
              && blockTokens == old(blockTokens)[dir := old(blockTokens)[dir] + (s.taken + [t])[|s.taken|..]]
              && ScanDirective(ctx, store.snips, s, nesting) == Scope(s.taken + [t], n)
    {
      hide NewLine, Subst, ScanDirective, TokenStore.Valid, LookAt, TakesToken;
      RestFrom(store.toks, cursor);
      ScopeTakes(ctx, store.snips, s, nesting);
      LookCloses(s.last, s.unread, nesting);
      n := NestingAfter(look, nesting);
      TakeInScope(dir, s.taken);
    }

    /** A turn that imports: the scan goes on with the imported tokens, from the token before the directive. */
    method ImportTurn(nesting: nat, ghost s: Scan) returns (r: Result<()>)
      requires Valid() && StandsAt(s) && LookAt(s.last, s.unread, nesting).Importing?
      modifies this`cursor, this`imports, store, store.repr
      ensures Valid() && fresh(store.repr - old(store.repr)) && store.snips == old(store.snips)
      ensures r != Ok(()) ==> Fails(r, ScanDirective(ctx, store.snips, s, nesting))
      ensures r == Ok(()) ==>
                && 0 <= cursor < |store.toks| && imports < old(imports)
                && ScanDirective(ctx, store.snips, s, nesting) == Scope(s.taken, nesting)
    {
      hide NewLine, Subst, Import, ScanDirective, TokenStore.Valid, LookAt;
      ScopeImports(ctx, store.snips, s, nesting);
      r := ImportInScope(s.taken, nesting);
    }

    /** One turn of the loop over a directive's scope. */
    method ScopeTurn(dir: string, nesting: nat, ghost taken: seq<Token>) returns (turn: Turn, ghost taken': seq<Token>)
      requires Valid() && 0 <= cursor < |store.toks| && dir in blockTokens
      modifies this`cursor, this`imports, this`blockTokens, store, store.repr
      ensures Valid() && fresh(store.repr - old(store.repr)) && store.snips == old(store.snips)
      ensures match turn
              case Fail(r) => Fails(r, old(Scope(taken, nesting)))
              case Stop =>
                && 0 <= cursor < |store.toks| && taken' == taken && blockTokens == old(blockTokens)
                && old(Scope(taken, nesting)) ==
                   if nesting > 0 then Err(UnexpectedEof)
                   else Ok(Scan(store.toks[cursor], store.toks[cursor + 1..], taken, imports))
              case Again(n) =>
                && 0 <= cursor < |store.toks| && taken <= taken'
                && blockTokens == old(blockTokens)[dir := old(blockTokens)[dir] + taken'[|taken|..]]
                && (imports < old(imports) || (imports == old(imports) &&
                                               |store.toks| - cursor < old(|store.toks| - cursor)))
                && old(Scope(taken, nesting)) == Scope(taken', n)
    {
      hide NewLine, Subst, Import, ScanDirective, TokenStore.Valid, LookAt;
      ghost var s := Scan(store.toks[cursor], store.toks[cursor + 1..], taken, imports);
      ScopeEnds(ctx, store.snips, s, nesting);
      LookUnread(s.last, s.unread, nesting);
      var look := LookAhead(nesting);
      if look.Ended? || look.NewDirective? {
        return Stop, taken;
      } else if look.Stray? {
        return Fail(Err(UnexpectedCloseBrace)), taken;
      } else if look.Importing? {
        var imported := ImportTurn(nesting, s);
        if imported != Ok(()) {
          return Fail(imported), taken;
        }
        NothingTaken(blockTokens[dir], taken);
        return Again(nesting), taken;
      }
      ghost var t := SubstToken(ctx, s.unread[0]);
      var n := TakeTurn(dir, look, nesting, s);
      return Again(n), taken + [t];
    }

    /** Collects a directive: its own token and all up to where its scope closes. */
    method Directive() returns (r: Result<()>)
      requires Valid() && 0 <= cursor < |store.toks|
      modifies this`cursor, this`imports, this`blockTokens, store, store.repr
      ensures Valid() && fresh(store.repr - old(store.repr)) && store.snips == old(store.snips)
      ensures var t := old(store.toks)[old(cursor)];
              var dir := Subst(ctx, t.text);
              if !ValidDirective(ctx, dir) then r == Err(UnknownDirective)
              else
                match ScanDirective(ctx, store.snips, Scan(t, old(Unread()), [t], old(imports)), 0)
                case Err(e) => r == Err(e)
                case OutOfImports => r == OutOfImports
                case Ok(s) =>
                  && r == Ok(()) && imports == s.imports && Last() == Some(s.last) && Unread() == s.unread
                  && blockTokens == Add(old(blockTokens), dir, s.taken)
    {
      hide NewLine, Subst, ValidDirective, Import, ScanDirective, TokenStore.Valid;
      var dir := Subst(ctx, Val());
      var nesting: nat := 0;
      if !ValidDirective(ctx, dir) {
        return Err(UnknownDirective);
      }
      ghost var taken := [store.toks[cursor]];
      blockTokens := Add(blockTokens, dir, [store.Get(cursor)]);
      while true
        invariant Valid() && 0 <= cursor < |store.toks| && store.snips == old(store.snips)
        invariant fresh(store.repr - old(store.repr))
        invariant Scope(taken, nesting) == old(Scope([store.toks[cursor]], 0))
        invariant blockTokens == Add(old(blockTokens), dir, taken)
        decreases imports, |store.toks| - cursor
      {
        var turn;
        ghost var taken';
        ghost var base := if dir in old(blockTokens) then old(blockTokens)[dir] else [];
        turn, taken' := ScopeTurn(dir, nesting, taken);
        match turn
        case Fail(e) => return e;
        case Stop => break;
        case Again(n) =>
          Regrouped(base, taken, taken');
          nesting, taken := n, taken';
      }
      if nesting > 0 {
        return Err(UnexpectedEof);
      }
      return Ok(());
    }

    /** What is to come of the server block's body, given the directives collected. */
    ghost function Rest(segs: seq<Segment>): Result<Body>
      reads this, store
    {
      ScanBody(ctx, store.snips, Body(Last(), Unread(), segs, imports))
    }

    /** An import between directives: the cursor goes back to the token before it, if any. */
    method ImportInBody() returns (r: Result<()>)
      requires Valid() && 0 <= cursor < |store.toks|
      modifies this`cursor, this`imports, store, store.repr
      ensures Valid() && fresh(store.repr - old(store.repr)) && store.snips == old(store.snips)
      ensures match Import(ctx, store.snips, old(store.toks[cursor..]))
              case Err(e) => r == Err(e)
              case OutOfImports => r == OutOfImports
              case Ok(unread) =>
                if old(imports) == 0 then r == OutOfImports
                else
                  && r == Ok(()) && imports == old(imports) - 1 && cursor == old(cursor) - 1 && cursor < |store.toks|
                  && Last() == (if cursor < 0 then None else Some(old(store.toks)[cursor])) && Unread() == unread
    {
      hide Import, TokenStore.Valid;
      ghost var toks, c := store.toks, cursor;
      r := DoImport();
      if r == Ok(()) {
        assert c > 0 ==> store.toks[..c][c - 1] == toks[..c][c - 1];
        cursor := cursor - 1;
      }
    }

    /** A turn that collects the directive under the cursor. */
    method DirectiveTurn(ghost b: Body) returns (r: Result<()>, ghost segs': seq<Segment>)
      requires Valid() && 0 <= cursor < |store.toks| && blockTokens == Group(b.segs)
      requires b.unread == store.toks[cursor..] && b.imports == imports && ReadsDirective(b)
      modifies this`cursor, this`imports, this`blockTokens, store, store.repr
      ensures Valid() && fresh(store.repr - old(store.repr)) && store.snips == old(store.snips)
      ensures r != Ok(()) ==> Fails(r, ScanBody(ctx, store.snips, b))
      ensures r == Ok(()) ==>
                && cursor < |store.toks| && blockTokens == Group(segs')
                && (imports < b.imports || (imports == b.imports && |Unread()| < |b.unread|))
                && ScanBody(ctx, store.snips, b) == Rest(segs')
    {
      hide ScanBody, ScanDirective, Subst, ValidDirective, Group, TokenStore.Valid, ReadsDirective;
      segs' := b.segs;
      RestFrom(store.toks, cursor);
      BodyReads(ctx, store.snips, b);
      ghost var t := b.unread[0];
      ghost var s := ScanDirective(ctx, store.snips, Scan(t, b.unread[1..], [t], imports), 0);
      r := Directive();
      if r == Ok(()) {
        ghost var seg := Segment(Subst(ctx, t.text), s.value.taken);
        GroupSnoc(b.segs, seg);
        segs' := b.segs + [seg];
      }
    }

    /** A turn that imports between directives. */
    method ImportBetween(ghost b: Body) returns (r: Result<()>)
      requires Valid() && 0 <= cursor < |store.toks|
      requires b.unread == store.toks[cursor..] && b.imports == imports && b.unread[0].text == "import"
      requires b.last == if cursor == 0 then None else Some(store.toks[cursor - 1])
      modifies this`cursor, this`imports, store, store.repr
      ensures Valid() && fresh(store.repr - old(store.repr)) && store.snips == old(store.snips)
      ensures r != Ok(()) ==> Fails(r, ScanBody(ctx, store.snips, b))
      ensures r == Ok(()) ==>
                && cursor < |store.toks| && imports < old(imports)
                && ScanBody(ctx, store.snips, b) == Rest(b.segs)
    {
      hide ScanBody, Import, Subst, TokenStore.Valid;
      BodyImports(ctx, store.snips, b);
      r := ImportInBody();
    }

    /** One turn of the loop over a body's directives. */
    method BodyTurn(ghost segs: seq<Segment>) returns (turn: Turn, ghost segs': seq<Segment>)
      requires Valid() && cursor < |store.toks| && blockTokens == Group(segs)
      modifies this`cursor, this`imports, this`blockTokens, store, store.repr
      ensures Valid() && fresh(store.repr - old(store.repr)) && store.snips == old(store.snips)
      ensures match turn
              case Fail(r) => Fails(r, old(Rest(segs)))
              case Stop =>
                && cursor < |store.toks| && blockTokens == Group(segs) && segs' == segs
                && old(Rest(segs)) == Ok(Body(Last(), Unread(), segs, imports))
              case Again(_) =>
                && cursor < |store.toks| && blockTokens == Group(segs')
                && (imports < old(imports) || (imports == old(imports) && |Unread()| < old(|Unread()|)))
                && old(Rest(segs)) == Rest(segs')
    {
      hide ScanBody, Group, TokenStore.Valid;
      segs' := segs;
      ghost var b := Body(Last(), Unread(), segs, imports);
      BodyEnds(ctx, store.snips, b);
      var more := Next();
      if !more {
        return Stop, segs;
      }
      RestFrom(store.toks, cursor);
      assert b.unread == store.toks[cursor..];
      if Val() == "}" {
        return Stop, segs;
      }
      if Val() == "import" {
        var imported := ImportBetween(b);
        return if imported == Ok(()) then Again(0) else Fail(imported), segs;
      }
      var d;
      d, segs' := DirectiveTurn(b);
      turn := if d == Ok(()) then Again(0) else Fail(d);
    }

    /** Collects directives up to the brace that closes the server block, or the end of input. */
    method Directives(ghost segs: seq<Segment>) returns (r: Result<()>, ghost segs': seq<Segment>)
      requires Valid() && cursor < |store.toks| && blockTokens == Group(segs)
      modifies this`cursor, this`imports, this`blockTokens, store, store.repr
      ensures Valid() && fresh(store.repr - old(store.repr)) && store.snips == old(store.snips)
      ensures match old(Rest(segs))
              case Err(e) => r == Err(e)
              case OutOfImports => r == OutOfImports
              case Ok(b) =>
                && r == Ok(()) && imports == b.imports && cursor < |store.toks|
                && Last() == b.last && Unread() == b.unread && blockTokens == Group(b.segs) && segs' == b.segs
    {
      hide ScanBody, Group, TokenStore.Valid, Parser.Last, Parser.Unread;
      segs' := segs;
      while true
        invariant Valid() && cursor < |store.toks| && store.snips == old(store.snips)
        invariant fresh(store.repr - old(store.repr))
        invariant Rest(segs') == old(Rest(segs)) && blockTokens == Group(segs')
        decreases imports, |Unread()|
      {
        var turn;
        turn, segs' := BodyTurn(segs');
        match turn
        case Fail(e) => return e, segs';
        case Stop => return Ok(()), segs';
        case Again(_) =>
      }
    }

    /** The token before the cursor. */
    ghost function Prev(): Option<Token>
      reads this, store
    {
      if 1 <= cursor <= |store.toks| then Some(store.toks[cursor - 1]) else None
    }

    /** The state of the address scan. */
    ghost function Addressing(expecting: bool): Addresses
      reads this, store
    {
      Addresses(Prev(), if 0 <= cursor <= |store.toks| then store.toks[cursor..] else [], keys, expecting, eof, imports)
    }

    /** Adds an address; a comma at its end is dropped and announces another one. */
    method TakeKey(token: string, expecting: bool) returns (expecting': bool)
      modifies this`keys
      ensures forall a: Addresses :: a.keys == old(keys) && a.expecting == expecting ==>
                                       AddKey(a, token) == a.(keys := keys, expecting := expecting')
    {
      expecting' := expecting;
      var tkn := token;
      if tkn != "" {
        if tkn[|tkn| - 1] == ',' {
          tkn := tkn[..|tkn| - 1];
          expecting' := true;
        } else {
          expecting' := false;
        }
        keys := keys + [tkn];
      }
    }

    /** An import among the addresses: the cursor stays, on the first token imported. */
    method ImportInAddresses(ghost expecting: bool) returns (r: Result<()>)
      requires Valid() && cursor >= 0
      modifies this`cursor, this`imports, store, store.repr
      ensures Valid() && fresh(store.repr - old(store.repr)) && store.snips == old(store.snips)
      ensures match Import(ctx, store.snips, old(Addressing(expecting)).at)
              case Err(e) => r == Err(e)
              case OutOfImports => r == OutOfImports
              case Ok(at) =>
                if old(imports) == 0 then r == OutOfImports
                else
                  && r == Ok(()) && imports == old(imports) - 1 && cursor >= 0
                  && Addressing(expecting) == old(Addressing(expecting)).(at := at, imports := imports)
    {
      hide Import, TokenStore.Valid;
      ghost var toks, c := store.toks, cursor;
      r := DoImport();
      if r == Ok(()) {
        assert c > 0 ==> store.toks[..c][c - 1] == toks[..c][c - 1];
      }
    }

    /** The import directive is next among the addresses. */
    ghost predicate AtImport(a: Addresses)
      reads this
    {
      Subst(ctx, Grammar.Val(a.at)) == "import" && OnNewLine(a.prev, a.at)
    }

    /** A turn that imports addresses. */
    method ImportAddresses(ghost expecting: bool) returns (r: Result<()>)
      requires Valid() && cursor >= 0 && AtImport(Addressing(expecting))
      modifies this`cursor, this`imports, store, store.repr
      ensures Valid() && fresh(store.repr - old(store.repr)) && store.snips == old(store.snips)
      ensures r != Ok(()) ==> Fails(r, ScanAddresses(ctx, store.snips, old(Addressing(expecting))))
      ensures r == Ok(()) ==>
                && cursor >= 0 && imports < old(imports)
                && ScanAddresses(ctx, store.snips, old(Addressing(expecting))) ==
                   ScanAddresses(ctx, store.snips, Addressing(expecting))
    {
      hide ScanAddresses, Import, Subst, NewLine, OnNewLine, TokenStore.Valid, AddKey, Parser.Addressing;
      AddressesUnfold(ctx, store.snips, Addressing(expecting));
      AddressingImports(expecting);
      r := ImportInAddresses(expecting);
    }

    lemma {:induction false} AddressingImports(expecting: bool)
      ensures Addressing(expecting).imports == imports
    {
    }

    /** A turn that takes an address. */
    method KeyTurn(tkn: string, expecting: bool) returns (turn: Turn, expecting': bool)
      requires Valid() && cursor >= 0 && tkn == Subst(ctx, Grammar.Val(Addressing(expecting).at))
      requires tkn != "{" && !AtImport(Addressing(expecting))
      modifies this`cursor, this`keys, this`eof
      ensures Valid() && cursor >= 0
      ensures var whole := ScanAddresses(ctx, store.snips, old(Addressing(expecting)));
              match turn
              case Fail(r) => Fails(r, whole)
              case Stop => whole == Ok(Addressing(expecting'))
              case Again(_) => whole == ScanAddresses(ctx, store.snips, Addressing(expecting')) && cursor > old(cursor)
    {
      hide ScanAddresses, Import, Subst, NewLine, OnNewLine, TokenStore.Valid, AddKey;
      AddressesUnfold(ctx, store.snips, Addressing(expecting));
      expecting' := TakeKey(tkn, expecting);
      turn := AfterKey(expecting');
    }

    /** One turn of the loop over addresses. */
    method AddressTurn(expecting: bool) returns (turn: Turn, expecting': bool)
      requires Valid() && cursor >= 0
      modifies this`cursor, this`imports, this`keys, this`eof, store, store.repr
      ensures Valid() && (turn.Fail? || cursor >= 0)
      ensures fresh(store.repr - old(store.repr)) && store.snips == old(store.snips)
      ensures var whole := ScanAddresses(ctx, store.snips, old(Addressing(expecting)));
              match turn
              case Fail(r) => Fails(r, whole)
              case Stop => whole == Ok(Addressing(expecting'))
              case Again(_) =>
                && whole == ScanAddresses(ctx, store.snips, Addressing(expecting'))
                && (imports < old(imports) || (imports == old(imports) &&
                                               |store.toks| - cursor < old(|store.toks| - cursor)))
    {
      hide ScanAddresses, Subst, NewLine, TokenStore.Valid;
      expecting' := expecting;
      ghost var a := Addressing(expecting);
      AddressesBrace(ctx, store.snips, a);
      assert cursor < |store.toks| ==> a.at[0] == store.toks[cursor];
      var tkn := Subst(ctx, Val());
      if tkn == "import" && IsNewLine() {
        var imported := ImportAddresses(expecting);
        return if imported == Ok(()) then Again(0) else Fail(imported), expecting;
      }
      if tkn == "{" {
        return if expecting then Fail(Err(ExpectedAddress)) else Stop, expecting;
      }
      turn, expecting' := KeyTurn(tkn, expecting);
    }

    /** Moves on after an address, and decides whether another one may follow. */
    method AfterKey(expecting: bool) returns (turn: Turn)
      requires Valid() && cursor >= 0
      modifies this`cursor, this`eof
      ensures Valid() && cursor >= 0
      ensures var b := old(Addressing(expecting));
              if |b.at| < 2 then
                if expecting then turn == Fail(Err(UnexpectedEof))
                else turn == Stop && Addressing(expecting) == b.(eof := true)
              else
                && Addressing(expecting) == b.(prev := Some(b.at[0]), at := b.at[1..])
                && turn == if !expecting && NewLine(b.at[0], b.at[1]) then Stop else Again(0)
      ensures turn.Again? ==> cursor > old(cursor)
    {
      hide NewLine, TokenStore.Valid;
      ghost var at := Addressing(expecting).at;
      assert cursor + 1 < |store.toks| ==>
          at[0] == store.toks[cursor] && at[1] == store.toks[cursor + 1] && at[1..] == store.toks[cursor + 1..];
      var hasNext := Next();
      if expecting && !hasNext {
        return Fail(Err(UnexpectedEof));
      }
      if !hasNext {
        eof := true;
        return Stop;
      }
      if !expecting && IsNewLine() {
        return Stop;
      }
      return Again(0);
    }

    /** Reads the addresses of a server block. */
    method ReadAddresses() returns (r: Result<()>, ghost expecting: bool)
      requires Valid() && cursor >= 0
      modifies this`cursor, this`imports, this`keys, this`eof, store, store.repr
      ensures Valid() && (r == Ok(()) ==> cursor >= 0)
      ensures fresh(store.repr - old(store.repr)) && store.snips == old(store.snips)
      ensures match ScanAddresses(ctx, store.snips, old(Addressing(false)))
              case Err(e) => r == Err(e)
              case OutOfImports => r == OutOfImports
              case Ok(a) => r == Ok(()) && Addressing(expecting) == a
    {
      hide ScanAddresses, TokenStore.Valid;
      var expectingAnother := false;
      expecting := false;
      while true
        invariant Valid() && cursor >= 0 && store.snips == old(store.snips)
        invariant fresh(store.repr - old(store.repr))
        invariant ScanAddresses(ctx, store.snips, Addressing(expectingAnother)) ==
                  ScanAddresses(ctx, store.snips, old(Addressing(false)))
        decreases imports, |store.toks| - cursor
      {
        var turn;
        turn, expectingAnother := AddressTurn(expectingAnother);
        match turn
        case Fail(e) => return e, expectingAnother;
        case Stop => return Ok(()), expectingAnother;
        case Again(_) =>
      }
    }

    /** Reads and stores everything in a block for later replay, in memory of its own. */
    method SnippetTokens(ghost at: seq<Token>) returns (r: Result<()>, tokens: Slice)
      requires Valid() && 0 <= cursor && at == store.toks[cursor..]
      modifies this`cursor
      ensures Valid() && Fits(tokens) && fresh(tokens.arr)
      ensures if Grammar.Val(at) != "{" then r == Err(MissingBrace)
              else
                match ScanSnippet(Stored(at[0], at[1..], []), 1)
                case Err(e) => r == Err(e)
                case OutOfImports => false
                case Ok(s) =>
                  && r == Ok(()) && 0 <= cursor < |store.toks| && View(tokens) == s.tokens
                  && Last() == Some(s.last) && Unread() == s.unread
    {
      hide ScanSnippet, TokenStore.Valid, View, Fits;
      tokens := Empty();
      assert cursor < |store.toks| ==> at[0] == store.toks[cursor] && at[1..] == store.toks[cursor + 1..];
      if Val() != "{" {
        return Err(MissingBrace), tokens;
      }
      r, tokens := CollectSnippet(Stored(at[0], at[1..], []));
    }

    /** Reads on to the brace that closes the one before, and collects what comes in between. */
    method CollectSnippet(ghost from: Stored) returns (r: Result<()>, tokens: Slice)
      requires Valid() && 0 <= cursor < |store.toks| && from == Stored(store.toks[cursor], store.toks[cursor + 1..], [])
      modifies this`cursor
      ensures Valid() && Fits(tokens) && fresh(tokens.arr)
      ensures match ScanSnippet(from, 1)
              case Err(e) => r == Err(e)
              case OutOfImports => false
              case Ok(s) =>
                && r == Ok(()) && 0 <= cursor < |store.toks| && View(tokens) == s.tokens
                && Last() == Some(s.last) && Unread() == s.unread
    {
      hide ScanSnippet, TokenStore.Valid, View, Fits;
      tokens := Empty();
      var count: nat := 1;
      ghost var read: seq<Token> := [];
      while true
        invariant Valid() && 0 <= cursor < |store.toks| && count >= 1
        invariant Fits(tokens) && fresh(tokens.arr) && View(tokens) == read
        invariant ScanSnippet(from, 1) == ScanSnippet(Stored(store.toks[cursor], store.toks[cursor + 1..], read), count)
        decreases |store.toks| - cursor
      {
        SnippetUnfold(Stored(store.toks[cursor], store.toks[cursor + 1..], read), count);
        RestAfter(store.toks, cursor);
        var more := Next();
        if !more {
          return Err(MissingBrace), tokens;
        }
        count := CountBraces(count);
        if count == 0 {
          break;
        }
        read := read + [store.toks[cursor]];
        tokens := Append(tokens, [store.Get(cursor)]);
      }
      return Ok(()), tokens;
    }

    /** Counts the braces that are open after the token under the cursor. */
    method CountBraces(open: nat) returns (count: nat)
      requires Valid() && 0 <= cursor < |store.toks| && open >= 1
      ensures var text := store.toks[cursor].text;
              count == if text == "}" then open - 1 else if text == "{" then open + 1 else open
    {
      count := open;
      if Val() == "}" {
        count := count - 1;
      }
      if Val() == "{" {
        count := count + 1;
      }
    }

    /** The contents of a server block, with or without braces around them. */
    method BlockContents(ghost e: bool) returns (r: Result<()>)
      requires Valid() && cursor >= 0 && blockTokens == map[]
      modifies this`cursor, this`imports, this`blockTokens, store, store.repr
      ensures Valid() && fresh(store.repr - old(store.repr)) && store.snips == old(store.snips)
      ensures Ends(r, ScanContents(ctx, store.snips, old(Addressing(e))))
    {
      hide ScanBody, Group, TokenStore.Valid, Parser.Unread, Parser.Prev;
      var open := OpenBody(e);
      GroupNothing();
      ghost var segs;
      r, segs := Directives([]);
      if r == Ok(()) && open && Val() != "}" {
        r := Err(MissingBrace);
      }
    }

    /** Checks for an opening brace; without one, the cursor steps back before the first directive. */
    method OpenBody(ghost e: bool) returns (open: bool)
      requires Valid() && cursor >= 0
      modifies this`cursor
      ensures Valid() && cursor < |store.toks|
      ensures var a := old(Addressing(e));
              && open == (Grammar.Val(a.at) == "{")
              && (if open then Last() == Some(a.at[0]) && Unread() == a.at[1..]
                  else Last() == a.prev && Unread() == a.at)
    {
      ghost var at := Addressing(e).at;
      assert cursor < |store.toks| ==> at[0] == store.toks[cursor] && at[1..] == store.toks[cursor + 1..];
      open := Val() == "{";
      if !open {
        cursor := cursor - 1;
      }
    }

    /** The parser has come to what a turn of the grammar says. */
    ghost predicate Ends(r: Result<()>, spec: Result<Block>)
      reads this, store
    {
      match spec
      case Err(e) => r == Err(e)
      case OutOfImports => r == OutOfImports
      case Ok(b) =>
        && r == Ok(()) && keys == b.keys && imports == b.imports && store.snips == b.snips
        && Last() == b.last && Unread() == b.unread && (b.keys != [] ==> blockTokens == Group(b.segs))
    }

    /** A snippet: stored under its name, its block dropped. */
    method StoreSnippet(name: string, ghost e: bool) returns (r: Result<()>)
      requires Valid() && cursor >= 0
      modifies this`cursor, this`keys, store
      ensures Valid() && fresh(store.repr - old(store.repr))
      ensures Ends(r, ScanStored(old(store.snips), old(Addressing(e)), name))
    {
      hide ScanSnippet, View, TokenStore.Valid, Fits, Group;
      ghost var at := Addressing(e).at;
      if store.Defines(name) {
        return Err(SnippetRedeclared);
      }
      var tokens;
      r, tokens := SnippetTokens(at);
      if r == Ok(()) {
        store.Define(name, tokens);
        keys := [];
      }
    }

    /** One server block or snippet, from the token under the cursor on. */
    method ParseOne() returns (r: Result<()>)
      requires Valid() && 0 <= cursor < |store.toks| && !eof
      modifies this, store, store.repr
      ensures Valid() && fresh(store.repr - old(store.repr))
      ensures r == Ok(()) && eof ==> Unread() == []
      ensures Ends(r, ScanOne(ctx, old(store.snips), old(Prev()), old(store.toks[cursor..]), old(imports)))
    {
      hide ScanAddresses, ScanContents, ScanStored, SnippetName, Group, TokenStore.Valid, Parser.Ends;
      keys, blockTokens := [], map[];
      ghost var a := Addressing(false);
      ghost var e;
      r, e := ReadAddresses();
      if r != Ok(()) {
        FailureEnds(r);
        return;
      }
      if eof {
        AddressesAtEof(ctx, store.snips, a);
        AtEofEnds(e);
        return;
      }
      match SnippetName(keys)
      case Some(name) => r := StoreSnippet(name, e);
      case None => r := BlockContents(e);
    }

    lemma {:induction false} FailureEnds(r: Result<()>)
      ensures r.Err? ==> Ends(r, Err(r.error))
      ensures r.OutOfImports? ==> Ends(r, OutOfImports)
    {
    }

    /** Addresses that end with the input: nothing is left, and there is no body. */
    lemma {:induction false} AtEofEnds(e: bool)
      requires cursor >= 0 && |Addressing(e).at| < 2 && blockTokens == map[]
      ensures var at := Addressing(e).at;
              Ends(Ok(()), Ok(Block(keys, [], if at == [] then None else Some(at[0]), [], store.snips, imports)))
      ensures Unread() == []
    {
      GroupNothing();
    }

    /** Moves to the first token of the next block, if there is one. */
    method NextBlock() returns (more: bool)
      requires Valid()
      modifies this`cursor
      ensures Valid()
      ensures !more ==> old(Unread()) == [] && Last() == old(Last()) && Unread() == []
      ensures more ==>
                0 <= cursor < |store.toks| && Prev() == old(Last()) && store.toks[cursor..] == old(Unread()) != []
    {
      more := Next();
    }

    /** All server blocks, up to the first error. */
    method ParseAll() returns (p: Parsed)
      requires Valid() && cursor < |store.toks| && !eof
      modifies this, store, store.repr
      ensures Valid()
      ensures p == ScanAll(ctx, old(store.snips), old(Last()), old(Unread()), [], old(imports))
    {
      hide ScanAll, ScanOne, Group, TokenStore.Valid, Parser.Last, Parser.Unread, Parser.Prev;
      var blocks: seq<ServerBlock> := [];
      ghost var whole := ScanAll(ctx, store.snips, Last(), Unread(), [], imports);
      while true
        invariant Valid() && (eof ==> Unread() == [])
        invariant fresh(store.repr - old(store.repr))
        invariant whole == ScanAll(ctx, store.snips, Last(), Unread(), blocks, imports)
        decreases imports, |Unread()|
      {
        AllUnfold(ctx, store.snips, Last(), Unread(), blocks, imports);
        var more := NextBlock();
        if !more {
          return Parsed(blocks, Ok(()));
        }
        var r := ParseOne();
        match r
        case Err(e) => return Parsed(blocks, Err(e));
        case OutOfImports => return Parsed(blocks, OutOfImports);
        case Ok(_) =>
        if |keys| > 0 {
          blocks := blocks + [ServerBlock(keys, blockTokens)];
        }
      }
    }
  }

  /** Parses an input, given the substitution, the directives and the imports allowed. */
  method ParseText(ctx: Context, input: string, imports: nat) returns (p: Parsed)
    ensures p == Parse(ctx, Lex(input), imports)
  {
    hide ScanAll, Lex;
    var tokens := AllTokens(input);
    var parser := new Parser(ctx, tokens, imports);
    assert parser.Unread() == tokens;
    p := parser.ParseAll();
  }

  lemma {:induction false} GroupNothing()
    ensures Group([]) == map[]
  {
  }

  /** Addresses that end with the input leave at most one token unread. */
  lemma {:induction false} AddressesAtEof(ctx: Context, snips: Snippets, a: Addresses)
    requires !a.eof
    ensures var r := ScanAddresses(ctx, snips, a); r.Ok? && r.value.eof ==> |r.value.at| < 2
    decreases a.imports, |a.at|
  {
    hide Import, NewLine, Subst, OnNewLine;
    AddressesUnfold(ctx, snips, a);
    var tkn := Subst(ctx, Grammar.Val(a.at));
    if tkn == "import" && OnNewLine(a.prev, a.at) {
      var i := Import(ctx, snips, a.at);
      if i.Ok? && a.imports > 0 {
        AddressesAtEof(ctx, snips, a.(at := i.value, imports := a.imports - 1));
      }
    } else if tkn != "{" && |a.at| >= 2 {
      var b := AddKey(a, tkn);
      AddressesAtEof(ctx, snips, b.(prev := Some(b.at[0]), at := b.at[1..]));
    }
  }

  lemma {:induction false} AllUnfold(ctx: Context, snips: Snippets, last: Option<Token>, unread: seq<Token>,
                                     blocks: seq<ServerBlock>, imports: nat)
    ensures ScanAll(ctx, snips, last, unread, blocks, imports) ==
            if unread == [] then Parsed(blocks, Ok(()))
            else
              match ScanOne(ctx, snips, last, unread, imports)
              case Err(e) => Parsed(blocks, Err(e))
              case OutOfImports => Parsed(blocks, OutOfImports)
              case Ok(b) =>
                var blocks' := if b.keys == [] then blocks else blocks + [ServerBlock(b.keys, Group(b.segs))];
                ScanAll(ctx, b.snips, b.last, b.unread, blocks', b.imports)
  {
    hide ScanOne, Group;
  }

  lemma {:induction false} AddressesUnfold(ctx: Context, snips: Snippets, a: Addresses)
    ensures var tkn := Subst(ctx, Grammar.Val(a.at));
            ScanAddresses(ctx, snips, a) ==
            if tkn == "import" && OnNewLine(a.prev, a.at) then
              match Import(ctx, snips, a.at)
              case Err(e) => Err(e)
              case OutOfImports => OutOfImports
              case Ok(at) =>
                if a.imports == 0 then OutOfImports
                else ScanAddresses(ctx, snips, a.(at := at, imports := a.imports - 1))
            else if tkn == "{" then
              if a.expecting then Err(ExpectedAddress) else Ok(a)
            else
              var b := AddKey(a, tkn);
              if |b.at| < 2 then
                if b.expecting then Err(UnexpectedEof) else Ok(b.(eof := true))
              else
                var c := b.(prev := Some(b.at[0]), at := b.at[1..]);
                if !c.expecting && NewLine(b.at[0], b.at[1]) then Ok(c) else ScanAddresses(ctx, snips, c)
  {
    hide Import, NewLine;
  }

  lemma {:induction false} AddressesBrace(ctx: Context, snips: Snippets, a: Addresses)
    ensures Subst(ctx, Grammar.Val(a.at)) == "{" ==>
              ScanAddresses(ctx, snips, a) == if a.expecting then Err(ExpectedAddress) else Ok(a)
  {
  }

  lemma {:induction false} SnippetUnfold(s: Stored, count: nat)
    requires count >= 1
    ensures ScanSnippet(s, count) ==
            if s.unread == [] then Err(MissingBrace)
            else
              var t := s.unread[0];
              if t.text == "}" && count == 1 then Ok(Stored(t, s.unread[1..], s.tokens))
              else
                var count' := if t.text == "}" then count - 1 else if t.text == "{" then count + 1 else count;
                ScanSnippet(Stored(t, s.unread[1..], s.tokens + [t]), count')
  {
  }

  /** A turn that imports. */
  lemma {:induction false} BodyImports(ctx: Context, snips: Snippets, b: Body)
    requires b.unread != [] && b.unread[0].text == "import"
    ensures ScanBody(ctx, snips, b) ==
            match Import(ctx, snips, b.unread)
            case Err(e) => Err(e)
            case OutOfImports => OutOfImports
            case Ok(unread) =>
              if b.imports == 0 then OutOfImports
              else ScanBody(ctx, snips, b.(unread := unread, imports := b.imports - 1))
  {
    hide Import;
  }

  ghost predicate ReadsDirective(b: Body) {
    b.unread != [] && b.unread[0].text != "}" && b.unread[0].text != "import"
  }

  /** A turn that reads a directive. */
  lemma {:induction false} BodyReads(ctx: Context, snips: Snippets, b: Body)
    requires ReadsDirective(b)
    ensures var t := b.unread[0];
            var dir := Subst(ctx, t.text);
            ScanBody(ctx, snips, b) ==
            if !ValidDirective(ctx, dir) then Err(UnknownDirective)
            else
              match ScanDirective(ctx, snips, Scan(t, b.unread[1..], [t], b.imports), 0)
              case Err(e) => Err(e)
              case OutOfImports => OutOfImports
              case Ok(s) =>
                ScanBody(ctx, snips, Body(Some(s.last), s.unread, b.segs + [Segment(dir, s.taken)], s.imports))
  {
    hide ScanDirective;
  }

  lemma {:induction false} GroupSnoc(segs: seq<Segment>, s: Segment)
    ensures Group(segs + [s]) == Add(Group(segs), s.dir, s.tokens)
  {
    assert (segs + [s])[..|segs|] == segs;
  }

  /**
   A snippet keeps the contents it was defined with: whatever one turn of the parser reads, imports
   or substitutes, the snippets stored before it are stored unchanged after it.
   */
  lemma {:induction false} SnippetsKept(ctx: Context, snips: Snippets, prev: Option<Token>, at: seq<Token>,
                                        imports: nat, name: string)
    requires at != [] && name in snips
    ensures var r := ScanOne(ctx, snips, prev, at, imports);
            r.Ok? ==> name in r.value.snips && r.value.snips[name] == snips[name]
  {
    hide ScanAddresses, ScanBody, ScanSnippet;
  }
}
