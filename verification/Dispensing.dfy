/**
 The token dispenser (caddyfile/dispenser.go): a cursor over tokens that knows about lines.
 */
module Dispensing {
  import opened Lexer
  import LexerLines

  /** b continues the line on which a ends. */
  predicate SameLine(a: Token, b: Token) {
    a.file == b.file && a.line + Breaks(a.text) == b.line
  }

  /** b starts on a line after the one on which a ends, or comes from another file. */
  predicate NewLine(a: Token, b: Token) {
    a.file != b.file || a.line + Breaks(a.text) < b.line
  }

  /**
   In a freshly lexed input the two notions are exact opposites for neighbouring tokens, so at
   every cursor with a token after it exactly one of NextArg and NextLine advances.
   */
  lemma {:induction false} ArgOrLine(input: string, k: nat)
    requires k + 1 < |Lex(input)|
    ensures SameLine(Lex(input)[k], Lex(input)[k + 1]) <==> !NewLine(Lex(input)[k], Lex(input)[k + 1])
  {
    LexerLines.TokenLines(input);
    LexerLines.ConsecutiveLines(input);
    assert Lex(input)[k].file == "" && Lex(input)[k + 1].file == "";
  }

  /**
   Of any two tokens exactly one of the two holds if and only if they are from different files or the
   second does not come before the end of the first; the second always starts a line in another file.
   */
  lemma {:induction false} LineOfNext(a: Token, b: Token)
    ensures (SameLine(a, b) <==> !NewLine(a, b)) <==> a.file != b.file || a.line + Breaks(a.text) <= b.line
    ensures a.file != b.file ==> NewLine(a, b) && !SameLine(a, b)
  {
  }

  class Dispenser {
    const tokens: seq<Token>
    var cursor: int
    var nesting: nat

    ghost predicate Valid()
      reads this
    {
      -1 <= cursor
    }

    constructor (tokens: seq<Token>)
      ensures Valid() && this.tokens == tokens && cursor == -1 && nesting == 0
    {
      this.tokens := tokens;
      cursor := -1;
      nesting := 0;
    }

    /** The text of the current token, empty when there is none. */
    function Val(): string
      reads this
    {
      if cursor < 0 || cursor >= |tokens| then "" else tokens[cursor].text
    }

    method Next() returns (loaded: bool)
      requires Valid()
      modifies this`cursor
      ensures Valid()
      ensures loaded <==> old(cursor) + 1 < |tokens|
      ensures cursor == if loaded then old(cursor) + 1 else old(cursor)
    {
      if cursor < |tokens| - 1 {
        cursor := cursor + 1;
        return true;
      }
      return false;
    }

    method NextArg() returns (loaded: bool)
      requires Valid()
      modifies this`cursor
      ensures Valid()
      ensures loaded <==> old(cursor) < 0 || (old(cursor) + 1 < |tokens| &&
                                              SameLine(tokens[old(cursor)], tokens[old(cursor) + 1]))
      ensures cursor == if loaded then old(cursor) + 1 else old(cursor)
    {
      if cursor < 0 {
        cursor := cursor + 1;
        return true;
      }
      if cursor >= |tokens| {
        return false;
      }
      if cursor < |tokens| - 1 && tokens[cursor].file == tokens[cursor + 1].file
         && tokens[cursor].line + Breaks(tokens[cursor].text) == tokens[cursor + 1].line {
        cursor := cursor + 1;
        return true;
      }
      return false;
    }

    method NextLine() returns (loaded: bool)
      requires Valid()
      modifies this`cursor
      ensures Valid()
      ensures loaded <==> old(cursor) < 0 || (old(cursor) + 1 < |tokens| &&
                                              NewLine(tokens[old(cursor)], tokens[old(cursor) + 1]))
      ensures cursor == if loaded then old(cursor) + 1 else old(cursor)
    {
      if cursor < 0 {
        cursor := cursor + 1;
        return true;
      }
      if cursor >= |tokens| {
        return false;
      }
      if cursor < |tokens| - 1
         && (tokens[cursor].file != tokens[cursor + 1].file
             || tokens[cursor].line + Breaks(tokens[cursor].text) < tokens[cursor + 1].line) {
        cursor := cursor + 1;
        return true;
      }
      return false;
    }

    /**
     Loads the next token as long as it is in a block or opens one; a fresh dispenser may stand right
     before the opening brace.
     */
    method NextBlock() returns (loaded: bool)
      requires Valid()
      modifies this
      ensures Valid() && (loaded, Standing(cursor, nesting)) == BlockStep(tokens, old(Standing(cursor, nesting)))
    {
      if nesting > 0 {
        var _ := Next();
        if Val() == "}" {
          nesting := nesting - 1;
          return false;
        }
        return true;
      }
      var arg := NextArg();
      if !arg {
        return false;
      }
      if Val() != "{" {
        cursor := cursor - 1;
        return false;
      }
      var _ := Next();
      if Val() == "}" {
        return false;
      }
      nesting := nesting + 1;
      return true;
    }
  }

  // ---------------------------------------------------------------------------------------------
  // Blocks
  // ---------------------------------------------------------------------------------------------

  /** Where a dispenser stands, and how many blocks it is in. */
  datatype Standing = Standing(cursor: int, nesting: nat)

  /** The next token is an opening brace on the same line. */
  predicate OpensBlock(tokens: seq<Token>, cursor: int) {
    && -1 <= cursor < |tokens| - 1 && tokens[cursor + 1].text == "{"
    && (cursor >= 0 ==> SameLine(tokens[cursor], tokens[cursor + 1]))
  }

  predicate ClosesAt(tokens: seq<Token>, cursor: int) {
    0 <= cursor < |tokens| && tokens[cursor].text == "}"
  }

  function Forward(tokens: seq<Token>, cursor: int): int {
    if cursor + 1 < |tokens| then cursor + 1 else cursor
  }

  /** Whether a call loads a token, and where the dispenser stands after it. */
  function BlockStep(tokens: seq<Token>, p: Standing): (bool, Standing) {
    if p.nesting > 0 then
      var c := Forward(tokens, p.cursor);
      if ClosesAt(tokens, c) then (false, Standing(c, p.nesting - 1)) else (true, Standing(c, p.nesting))
    else if OpensBlock(tokens, p.cursor) then
      var c := Forward(tokens, p.cursor + 1);
      if ClosesAt(tokens, c) then (false, Standing(c, 0)) else (true, Standing(c, 1))
    else (false, p)
  }

  /** The first n calls in a row all load a token. */
  predicate Loads(tokens: seq<Token>, p: Standing, n: nat)
    decreases n
  {
    n == 0 || (BlockStep(tokens, p).0 && Loads(tokens, BlockStep(tokens, p).1, n - 1))
  }

  /** A closing brace follows the cursor. */
  ghost predicate CloseFollows(tokens: seq<Token>, cursor: int) {
    exists k :: cursor < k && ClosesAt(tokens, k)
  }

  /** In a block without a closing brace every call loads a token: at the end, the last one again and again. */
  lemma {:induction false} LoadsForever(tokens: seq<Token>, p: Standing, n: nat)
    requires p.nesting > 0 && !CloseFollows(tokens, p.cursor) && !ClosesAt(tokens, p.cursor)
    ensures Loads(tokens, p, n)
    decreases n
  {
    if n > 0 {
      LoadsForever(tokens, BlockStep(tokens, p).1, n - 1);
    }
  }

  lemma {:induction false} LoadsUntil(tokens: seq<Token>, p: Standing, k: int)
    requires p.nesting > 0 && p.cursor < k && ClosesAt(tokens, k)
    ensures !Loads(tokens, p, k - p.cursor)
    decreases k - p.cursor
  {
    if BlockStep(tokens, p).0 {
      LoadsUntil(tokens, BlockStep(tokens, p).1, k);
    }
  }

  ghost predicate Ends(tokens: seq<Token>, p: Standing) {
    exists n: nat :: !Loads(tokens, p, n)
  }

  lemma {:induction false} StopsAfter(tokens: seq<Token>, p: Standing, n: nat)
    requires !BlockStep(tokens, p).0 || !Loads(tokens, BlockStep(tokens, p).1, n)
    ensures Ends(tokens, p)
  {
    hide BlockStep;
    assert !Loads(tokens, p, n + 1);
  }

  /** The loop `for d.NextBlock()` over a block ends if and only if a closing brace follows the opening one. */
  lemma {:induction false} LoopEndsIff(tokens: seq<Token>, cursor: int)
    requires OpensBlock(tokens, cursor)
    ensures Ends(tokens, Standing(cursor, 0)) <==> CloseFollows(tokens, cursor + 1)
  {
    var p := Standing(cursor, 0);
    var next := BlockStep(tokens, p);
    if CloseFollows(tokens, cursor + 1) {
      var k :| cursor + 1 < k && ClosesAt(tokens, k);
      assert Forward(tokens, cursor + 1) == cursor + 2;
      if next.0 {
        assert next.1 == Standing(cursor + 2, 1) && k != cursor + 2;
        LoadsUntil(tokens, next.1, k);
        StopsAfter(tokens, p, k - cursor - 2);
      } else {
        StopsAfter(tokens, p, 0);
      }
    } else {
      assert !ClosesAt(tokens, Forward(tokens, cursor + 1));
      forall n: nat
        ensures Loads(tokens, p, n)
      {
        if n > 0 {
          LoadsForever(tokens, next.1, n - 1);
        }
      }
    }
  }

  /**
   The loop `for d.NextBlock()` that directives use: where a block opens and its first closing brace
   is token k, it visits exactly the tokens between the braces and stops on the closing one; where
   none opens, it visits nothing and moves nothing. Without a closing brace it does not end, as
   LoopEndsIff says.
   */
  method VisitBlock(d: Dispenser, ghost k: nat) returns (visited: seq<Token>)
    requires d.Valid() && d.nesting == 0
    requires OpensBlock(d.tokens, d.cursor) ==>
               && d.cursor + 2 <= k && ClosesAt(d.tokens, k)
               && forall i :: d.cursor + 2 <= i < k ==> !ClosesAt(d.tokens, i)
    modifies d
    ensures d.nesting == 0
    ensures old(OpensBlock(d.tokens, d.cursor)) ==> visited == d.tokens[old(d.cursor) + 2..k] && d.cursor == k
    ensures !old(OpensBlock(d.tokens, d.cursor)) ==> visited == [] && d.cursor == old(d.cursor)
  {
    ghost var start, opens := d.cursor, OpensBlock(d.tokens, d.cursor);
    visited := [];
    var more := d.NextBlock();
    while more
      invariant d.Valid() && (opens || (!more && visited == [] && d.cursor == start && d.nesting == 0))
      invariant opens ==> start + 2 <= d.cursor <= k && visited == d.tokens[start + 2..d.cursor]
      invariant opens ==> if more then d.nesting == 1 && d.cursor < k else d.nesting == 0 && d.cursor == k
      decreases k - d.cursor, more
    {
      ghost var c := d.cursor;
      assert d.tokens[start + 2..c + 1] == d.tokens[start + 2..c] + [d.tokens[c]];
      visited := visited + [d.tokens[d.cursor]];
      more := d.NextBlock();
      assert d.cursor == c + 1;
    }
  }
}
