/**
 What the parser refuses, and with which error, wherever it stands in an input
 (caddyfile/parse.go:122-225 and :345-383).
 */
module Refusals {
  import opened ClosingBrace
  import opened Conservation
  import opened Consumption
  import opened Dispensing
  import opened Grammar
  import opened Inlining
  import opened Lexer
  import opened Pieces
  import opened Wrappers

  // ---------------------------------------------------------------------------------------------
  // Among addresses
  // ---------------------------------------------------------------------------------------------

  /** A brace where a comma has announced another address. */
  lemma {:induction false} BraceForAddress(ctx: Context, pieces: seq<Piece>, addr: seq<Token>, open: Token,
                                           after: seq<Token>, imports: nat)
    requires Leading(ctx, pieces, addr + [open]) && Listed(ctx, false, addr, open)
    requires Announces(ctx, false, addr) && Subst(ctx, open.text) == "{"
    ensures Parse(ctx, Tokens(pieces) + (addr + ([open] + after)), imports) ==
            Parsed(Blocks(ctx, pieces), Err(ExpectedAddress))
  {
    hide ScanAddresses, ScanContents, ScanStored, SnippetName, Leading, Listed, Subst, NewLine, Tokens, Blocks;
    hide AddKey, LastAddress, KeysIn, Announces;
    var snips, last, at := SnippetsAll(pieces, map[]), LastAfter(pieces), [open] + after;
    ParseAfter(ctx, pieces, addr + [open], addr + at, imports);
    var a := Addresses(last, addr + at, [], false, false, imports);
    AddressesReach(ctx, snips, a, addr, at);
    var c := a.(prev := LastAddress(last, addr), at := at, keys := [] + KeysIn(ctx, addr),
               expecting := Announces(ctx, false, addr));
    AddressTakes(ctx, snips, c);
  }

  /** The end of the input where a comma has announced another address. */
  lemma {:induction false} EndForAddress(ctx: Context, pieces: seq<Piece>, addr: seq<Token>, t: Token, imports: nat)
    requires Leading(ctx, pieces, addr + [t]) && Listed(ctx, false, addr, t)
    requires Subst(ctx, t.text) != "{" && Subst(ctx, t.text) != "import"
    requires Announces(ctx, Announces(ctx, false, addr), [t])
    ensures Parse(ctx, Tokens(pieces) + (addr + [t]), imports) == Parsed(Blocks(ctx, pieces), Err(UnexpectedEof))
  {
    hide ScanAddresses, ScanContents, ScanStored, SnippetName, Leading, Listed, Subst, NewLine, Tokens, Blocks;
    hide AddKey, LastAddress, KeysIn, Announces;
    var snips, last, at := SnippetsAll(pieces, map[]), LastAfter(pieces), [t];
    ParseAfter(ctx, pieces, addr + [t], addr + at, imports);
    var a := Addresses(last, addr + at, [], false, false, imports);
    AddressesReach(ctx, snips, a, addr, at);
    var c := a.(prev := LastAddress(last, addr), at := at, keys := [] + KeysIn(ctx, addr),
               expecting := Announces(ctx, false, addr));
    AddressTakes(ctx, snips, c);
    AddKeyIs(ctx, c);
    assert at[..1] == [t];
  }

  /** A snippet under a name that is taken. */
  lemma {:induction false} SnippetAgain(ctx: Context, pieces: seq<Piece>, addr: seq<Token>, open: Token,
                                        after: seq<Token>, name: string, imports: nat)
    requires Leading(ctx, pieces, addr + [open]) && AddressPart(ctx, false, addr + [open], |addr|) &&
             ImportFree(ctx, addr)
    requires KeysIn(ctx, addr) == ["(" + name + ")"] && name in SnippetsAll(pieces, map[])
    ensures Parse(ctx, Tokens(pieces) + (addr + ([open] + after)), imports) ==
            Parsed(Blocks(ctx, pieces), Err(SnippetRedeclared))
  {
    hide ScanAddresses, ScanContents, SnippetName, Leading, Subst, NewLine, Tokens, Blocks, KeysIn, AddressPart;
    hide ImportFree;
    var snips, last, at, n := SnippetsAll(pieces, map[]), LastAfter(pieces), addr + ([open] + after), |addr|;
    ParseAfter(ctx, pieces, addr + [open], at, imports);
    AddressesThen(ctx, addr, open, after);
    assert at[..n] == addr && at[n..] == [open] + after;
    AddressesGoOn(ctx, snips, Addresses(last, at, [], false, false, imports), n);
    assert [] + KeysIn(ctx, addr) == KeysIn(ctx, addr);
    SnippetNameIff(KeysIn(ctx, addr), name);
  }

  /** A snippet without braces, or whose opening brace is never closed. */
  lemma {:induction false} SnippetNotClosed(ctx: Context, pieces: seq<Piece>, addr: seq<Token>, open: Token,
                                            after: seq<Token>, name: string, imports: nat)
    requires Leading(ctx, pieces, addr + [open]) && AddressPart(ctx, false, addr + [open], |addr|)
    requires ImportFree(ctx, addr) && KeysIn(ctx, addr) == ["(" + name + ")"] && name !in SnippetsAll(pieces, map[])
    requires open.text != "{" || forall k :: 0 <= k <= |after| ==> Depth(after[..k]) >= 0
    ensures Parse(ctx, Tokens(pieces) + (addr + ([open] + after)), imports) ==
            Parsed(Blocks(ctx, pieces), Err(MissingBrace))
  {
    hide ScanAddresses, ScanContents, ScanSnippet, SnippetName, Leading, Subst, NewLine, Tokens, Blocks, KeysIn;
    hide AddressPart, ImportFree, Depth;
    var snips, last, at, n := SnippetsAll(pieces, map[]), LastAfter(pieces), addr + ([open] + after), |addr|;
    ParseAfter(ctx, pieces, addr + [open], at, imports);
    AddressesThen(ctx, addr, open, after);
    assert at[..n] == addr && at[n..] == [open] + after && ([open] + after)[1..] == after;
    AddressesGoOn(ctx, snips, Addresses(last, at, [], false, false, imports), n);
    assert [] + KeysIn(ctx, addr) == KeysIn(ctx, addr);
    SnippetNameIff(KeysIn(ctx, addr), name);
    if open.text == "{" {
      NeverClosed(Stored(open, after, []), 1);
    }
  }

  lemma {:induction false} NeverClosed(s: Stored, count: nat)
    requires count >= 1 && forall k :: 0 <= k <= |s.unread| ==> count + Depth(s.unread[..k]) >= 1
    ensures ScanSnippet(s, count) == Err(MissingBrace)
    decreases |s.unread|
  {
    if s.unread != [] {
      var t, rest := s.unread[0], s.unread[1..];
      forall k | 0 <= k <= |rest|
        ensures count + BraceStep(t) + Depth(rest[..k]) >= 1
      {
        assert s.unread[..k + 1][1..] == rest[..k];
      }
      assert rest[..0] == [];
      NeverClosed(Stored(t, rest, s.tokens + [t]), count + BraceStep(t));
    }
  }

  // ---------------------------------------------------------------------------------------------
  // In the body of a site
  // ---------------------------------------------------------------------------------------------

  /** A directive that is not a valid one. */
  lemma {:induction false} UnknownName(ctx: Context, pieces: seq<Piece>, addr: seq<Token>, open: Token,
                                       segs: seq<Segment>, raw: seq<Token>, at: seq<Token>, imports: nat)
    requires SiteStart(ctx, addr, open, segs, raw) && Leading(ctx, pieces, addr + [open])
    requires at != [] && EndsAfter(segs, at[0]) && at[0].text != "}" && at[0].text != "import"
    requires ctx.valid.Some? && Subst(ctx, at[0].text) !in ctx.valid.value
    ensures Parse(ctx, Tokens(pieces) + (addr + ([open] + (raw + at))), imports) ==
            Parsed(Blocks(ctx, pieces), Err(UnknownDirective))
  {
    hide SiteStart, Leading, EndsAfter, Tokens, Blocks, KeysIn, ScanDirective, Subst;
    SiteFails(ctx, pieces, addr, open, segs, raw, at, imports, UnknownDirective);
  }

  /** The end of the input where the site is not closed; a brace that ends the last directive passes for its own. */
  lemma {:induction false} SiteNotClosed(ctx: Context, pieces: seq<Piece>, addr: seq<Token>, open: Token,
                                         segs: seq<Segment>, raw: seq<Token>, imports: nat)
    requires SiteStart(ctx, addr, open, segs, raw) && Leading(ctx, pieces, addr + [open])
    requires LastOf(segs, Some(open)).Some? && LastOf(segs, Some(open)).value.text != "}"
    ensures Parse(ctx, Tokens(pieces) + (addr + ([open] + raw)), imports) ==
            Parsed(Blocks(ctx, pieces), Err(MissingBrace))
  {
    hide SiteStart, Leading, Tokens, Blocks, KeysIn, ScanDirective, LastOf;
    assert raw + [] == raw;
    SiteFails(ctx, pieces, addr, open, segs, raw, [], imports, MissingBrace);
  }

  /** A closing brace on the line of a directive that has no brace open. */
  lemma {:induction false} StrayBrace(ctx: Context, pieces: seq<Piece>, addr: seq<Token>, open: Token,
                                      segs: seq<Segment>, raw: seq<Token>, head: Token, tail: seq<Token>,
                                      at: seq<Token>, imports: nat)
    requires SiteStart(ctx, addr, open, segs, raw) && Leading(ctx, pieces, addr + [open]) &&
             Begun(ctx, segs, head, tail)
    requires Depth(tail) == 0 && at != [] && at[0].text == "}" && !NewLine(Before(ctx, head, tail, |tail|), at[0])
    ensures Parse(ctx, Tokens(pieces) + (addr + ([open] + (raw + ([head] + (tail + at))))), imports) ==
            Parsed(Blocks(ctx, pieces), Err(UnexpectedCloseBrace))
  {
    hide SiteStart, Leading, Tokens, Blocks, KeysIn, ScanDirective, ScanBody, Begun, EndsAfter, Depth, NewLine, Before;
    var s := Scan(Before(ctx, head, tail, |tail|), at, [head] + SubstAll(ctx, tail), imports);
    StrayScan(ctx, SnippetsAll(pieces, map[]), s);
    DirectiveFails(ctx, pieces, addr, open, segs, raw, head, tail, at, imports, UnexpectedCloseBrace);
  }

  lemma {:induction false} StrayScan(ctx: Context, snips: Snippets, s: Scan)
    requires s.unread != [] && s.unread[0].text == "}" && !NewLine(s.last, s.unread[0])
    ensures ScanDirective(ctx, snips, s, 0) == Err(UnexpectedCloseBrace)
  {
  }

  /** The end of the input inside a directive's braces. */
  lemma {:induction false} DirectiveNotClosed(ctx: Context, pieces: seq<Piece>, addr: seq<Token>, open: Token,
                                              segs: seq<Segment>, raw: seq<Token>, head: Token, tail: seq<Token>,
                                              imports: nat)
    requires SiteStart(ctx, addr, open, segs, raw) && Leading(ctx, pieces, addr + [open]) &&
             Begun(ctx, segs, head, tail)
    requires Depth(tail) > 0
    ensures Parse(ctx, Tokens(pieces) + (addr + ([open] + (raw + ([head] + tail)))), imports) ==
            Parsed(Blocks(ctx, pieces), Err(UnexpectedEof))
  {
    hide SiteStart, Leading, Tokens, Blocks, KeysIn, ScanDirective, ScanBody, Begun, EndsAfter, Depth, NewLine, Before;
    assert tail + [] == tail;
    var s := Scan(Before(ctx, head, tail, |tail|), [], [head] + SubstAll(ctx, tail), imports);
    EndScan(ctx, SnippetsAll(pieces, map[]), s, Depth(tail));
    DirectiveFails(ctx, pieces, addr, open, segs, raw, head, tail, [], imports, UnexpectedEof);
  }

  lemma {:induction false} EndScan(ctx: Context, snips: Snippets, s: Scan, nesting: nat)
    requires s.unread == [] && nesting > 0
    ensures ScanDirective(ctx, snips, s, nesting) == Err(UnexpectedEof)
  {
  }
  // ---------------------------------------------------------------------------------------------
  // Every parse, imports included
  // ---------------------------------------------------------------------------------------------

  ghost predicate Named(segs: seq<Segment>, names: seq<string>) {
    forall i :: 0 <= i < |segs| ==> segs[i].dir in names
  }

  lemma {:induction false} BodyNames(ctx: Context, snips: Snippets, b: Body, names: seq<string>)
    requires ctx.valid == Some(names) && Named(b.segs, names)
    ensures var r := ScanBody(ctx, snips, b); r.Ok? ==> Named(r.value.segs, names)
    decreases b.imports, |b.unread|
  {
    hide ScanDirective, Import, Subst;
    if b.unread != [] && b.unread[0].text != "}" {
      var t := b.unread[0];
      if t.text == "import" {
        var r := Import(ctx, snips, b.unread);
        if r.Ok? && b.imports > 0 {
          BodyNames(ctx, snips, b.(unread := r.value, imports := b.imports - 1), names);
        }
      } else {
        var dir, r := Subst(ctx, t.text), ScanDirective(ctx, snips, Scan(t, b.unread[1..], [t], b.imports), 0);
        if ValidDirective(ctx, dir) && r.Ok? {
          var segs := b.segs + [Segment(dir, r.value.taken)];
          BodyNames(ctx, snips, Body(Some(r.value.last), r.value.unread, segs, r.value.imports), names);
        }
      }
    }
  }

  lemma {:induction false} TurnNames(ctx: Context, snips: Snippets, prev: Option<Token>, at: seq<Token>, imports: nat,
                                     names: seq<string>)
    requires ctx.valid == Some(names) && at != []
    ensures var r := ScanOne(ctx, snips, prev, at, imports); r.Ok? ==> Named(r.value.segs, names)
  {
    hide ScanAddresses, ScanBody, ScanSnippet, SnippetName;
    var r := ScanAddresses(ctx, snips, Addresses(prev, at, [], false, false, imports));
    if r.Ok? {
      var a := r.value;
      if Val(a.at) == "{" {
        BodyNames(ctx, snips, Body(Some(a.at[0]), a.at[1..], [], a.imports), names);
      } else {
        BodyNames(ctx, snips, Body(a.prev, a.at, [], a.imports), names);
      }
    }
  }

  lemma {:induction false} GroupNames(segs: seq<Segment>, names: seq<string>)
    requires Named(segs, names)
    ensures forall dir :: dir in Group(segs) ==> dir in names
    decreases |segs|
  {
    if segs != [] {
      GroupNames(segs[..|segs| - 1], names);
    }
  }

  ghost predicate AllNamed(blocks: seq<ServerBlock>, names: seq<string>) {
    forall i, dir :: 0 <= i < |blocks| && dir in blocks[i].tokens ==> dir in names
  }

  lemma {:induction false} ScanNames(ctx: Context, snips: Snippets, last: Option<Token>, unread: seq<Token>,
                                     blocks: seq<ServerBlock>, imports: nat, names: seq<string>)
    requires ctx.valid == Some(names) && AllNamed(blocks, names)
    ensures AllNamed(ScanAll(ctx, snips, last, unread, blocks, imports).blocks, names)
    decreases imports, |unread|
  {
    hide ScanOne, Group;
    if unread != [] {
      TurnNames(ctx, snips, last, unread, imports, names);
      var r := ScanOne(ctx, snips, last, unread, imports);
      if r.Ok? {
        var b := r.value;
        GroupNames(b.segs, names);
        var blocks' := if b.keys == [] then blocks else blocks + [ServerBlock(b.keys, Group(b.segs))];
        ScanNames(ctx, b.snips, b.last, b.unread, blocks', b.imports, names);
      }
    }
  }

  /** Whatever is imported and however the parse ends, every directive in a block is a valid one. */
  lemma {:induction false} OnlyValidNames(ctx: Context, tokens: seq<Token>, imports: nat, names: seq<string>)
    requires ctx.valid == Some(names)
    ensures forall i, dir :: var blocks := Parse(ctx, tokens, imports).blocks;
                             0 <= i < |blocks| && dir in blocks[i].tokens ==> dir in names
  {
    hide ScanAll;
    ScanNames(ctx, map[], None, tokens, [], imports, names);
  }
}
