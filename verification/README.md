# Caddy, modelled and proved in Dafny

A model of the parts of Caddy whose correctness is hardest to see from the code, with proofs of what
they keep, preserve and undo. `dafny verify dfyconfig.toml` checks all of it.

| component | modules |
|---|---|
| Caddyfile language | `Lexer`, `LexicalGrammar`, `LexerLines`, `Atoms`, `EnvRefs`, `EnvTemplates`, `Dispensing`, `Grammar`, `Allowance`, `Conservation`, `ClosingBrace`, `Pieces`, `Consumption`, `Inlining`, `Refusals`, `BlockLoops`, `TokenSlices`, `Parser`, `JsonText`, `JsonBuild`, `Names`, `TreeParse`, `TreeBuild`, `RoundTrip`, `Conversion`, `Reordering` |
| virtual hosts and TLS configurations by name | `HostNames`, `VHostTrie`, `ConfigGroup` |
| upstream selection and accounting | `Numbers`, `Upstream`, `Probing`, `RoundRobin`, `Reservoir`, `Selection`, `Connections`, `ConnectionHistory` |
| FastCGI framing | `FcgiRecords`, `FcgiPairs`, `FcgiWriter`, `FcgiRequest`, `FcgiReader` |
| TLS fingerprints | `ClientHello`, `HelloPrefixes`, `Ordering` |
| instance lifecycle | `Lifecycle`, `LifecycleEvents` |
| shared | `Wrappers`, `Sequences`, `ByteWords` |

Code that works by changing things is modelled by classes and loops (the scanner, the dispenser, the
parser on Go slices, the trie, the writers and readers, the list of instances); each is proved
against functions on values, and the main theorems are about those functions. Text is a sequence of
characters, FastCGI and TLS data are sequences of bytes. The environment, hashes, random numbers,
file contents, host normalisation and the results of callbacks are arbitrary parameters.

## What is proved

- **Round trip of the JSON form** (`RoundTrip.TreeRoundTrip`): print, lex, parse and rebuild give
  the document back with each body stably sorted by directive name; the same document exactly when
  the bodies were in that order. A single string survives exactly under a condition on its
  backslashes, `#` and spaces (`Atoms.AtomRoundTrip`).
- **The lexical grammar** (`LexicalGrammar.LexIsGrammar`): every input is a run of blanks, comments,
  words and quoted strings, and however it is cut into these, its tokens are what they say.
- **Environment references** (`EnvTemplates.SubstitutionMeans`): substitution puts the value of every
  reference in its place, in both syntaxes, and changes nothing else.
- **What an import means** (`Inlining.ImportAtTop`, `Inlining.ImportInSite`,
  `Inlining.ImportInDirective`): among addresses, between directives and inside them, a parse with an
  import is the parse with the tokens it stands for in its place; `Inlining.ImportIff` says exactly
  when an import is an error, and of which kind.
- **Imports in slice memory** (`TokenSlices.TokenStore.Splice`, `Parser.Parser.ParseAll`): the nested
  in-place `append` equals the pure splice, and no stored snippet is ever disturbed.
- **Conservation in the parser** (`Conservation.ParseConserves`, `Allowance.ParseEnds`,
  `Pieces.OneWayToCut`): in every context, with or without a list of directives, the parser ends on
  every import-free input. On success the input is cut into sites, snippets and addresses alone, with
  nothing left over and nothing twice; there is only one way to cut it, and the blocks are those of
  the pieces that have an address. Each directive's braces are balanced exactly when the body does
  not start with one. The other way round, an input that can be cut so is accepted
  (`Consumption.AcceptedIffCut`); `Refusals` has the errors that others end in.
- **Trie refinement** (`VHostTrie.Trie.Match`, `VHostTrie.AnswerIsLongest`): the mutable trie answers
  as the log of insertions says.
- **Selection by hash** (`Probing.AlwaysFindsIffPowerOfTwo`): complete for exactly the pools whose
  size is a power of two, for every size below 2^32, with the 32-bit wrap-around of the index.
- **Selection in turn** (`RoundRobin.NeverFailsIffSafe`, `RoundRobin.AlwaysFindsIffPowerOfTwo`,
  `RoundRobin.Fair`): the exact condition on the counter, the same pool sizes as for hashing when the
  counter is arbitrary, and fairness.
- **Random selection** (`Reservoir.EquallyLikely`): of all possible draws, each available host, or
  each least loaded one, is chosen by equally many.
- **Connections under interleaving** (`Connections.Accounting`, `Connections.BoundIsReached`,
  `ConnectionHistory.CountsAreHistory`, `ConnectionHistory.OnlyAvailableHosts`): in every reachable
  state exact counts, of what is going on and of what has happened, a bound that is attained, and no
  request on a host it has not seen available.
- **FastCGI** (`FcgiRequest.WritePairs`, `FcgiRequest.PairsArrive`, `FcgiReader.StreamReader.Read`):
  packing of parameters into records and back, and demultiplexing without loss.
- **Client hellos** (`ClientHello.HelloRoundTrip`, and `HelloPrefixes` for bytes that are not one) and
  the **order check**
  (`Ordering.InOrderIsCollapsed`, `Ordering.OrdinaryIffNoRepeats`).
- **Lifecycle** (`Lifecycle.Process.Restart`, `Lifecycle.Run`, `LifecycleEvents.RestartEvents`): the
  list of instances under any failures, and exactly which callbacks run, once each and in which order.

## What the proofs found

Where code and documentation, or code and expectation, disagree, the model follows the code.

- `Restart` is documented not to replace the instance upon failure. It does when a shutdown callback
  of the old instance fails: the new one runs and is listed, the old one is returned with an error.
  `Lifecycle.FailureKeepsIffNoShutdownCallbacks` gives the exact condition,
  `Lifecycle.FailedAfterReplacing` a case.
- A site whose addresses are all empty once substituted, such as a single reference to a variable
  that is not set, is dropped in silence with all its directives: `Pieces.KeptIffAddressed` says
  exactly which sites are kept, `Pieces.DroppedSiteExample` shows an input.
- `hostByHashing` is taken to return an available host if there is one. Its probing leaves hosts out
  unless the pool's size is a power of two; `Probing.ThreeHostsExample` is the smallest case.
- `RoundRobin.Select` can miss the only available host when its counter wraps:
  `RoundRobin.WrapExample`.
- A server block must be closed by a brace. The check looks at the token under the cursor, so at the
  end of the input any last token that reads as a brace once substituted passes: that of a nested
  block, or an argument. `ClosingBrace.UnclosedBlock` gives the exact condition on the tokens,
  `ClosingBrace.UnclosedBlockExample` a whole input.
- `ToJSON` does not keep the order of directives; it sorts them by name
  (`Reordering.ReorderedExample`). The slice it sorts starts
  with as many empty names as there are directives, so the lines of a directive without a name come
  once for each of them and once more (`JsonBuild.OnceIffNamed`).
- The loop `for d.NextBlock()` over an opened block never ends when no closing brace follows
  (`Dispensing.LoopEndsIff`, `BlockLoops.EndlessLoopExample`). On what an import-free parse hands on
  it does end, unless substitution makes an opening brace or a brace names a directive
  (`BlockLoops.LoopsEnd`): the parser counts braces before it substitutes
  (`BlockLoops.MadeBraceExample`).
- Imported tokens are not simply read as if they stood there. Between directives the first of them
  names a directive even if, by its own line number, it would continue the line of the directive
  before; `Inlining.ImportInSite` has the condition under which the two are the same.
- The header policy without a name selects no host at all (`Selection.Select`).
- `assertPresenceAndOrdering` lets equal items in a row share one place.
- A value in the environment that holds its own reference makes substitution run forever
  (`EnvRefs.SelfReferenceNeverSettles`), and a snippet that imports itself makes the parser run
  forever (`Allowance.SelfImportNeverEnds`).
- `writeRecord` does not check that the length of a record fits its 16 bits
  (`FcgiRecords.LongDoesNotReadBack`); the stream writers never exceed them.

## Model

| member | source | states |
|---|---|---|
| Lexer.Scanner.Next | caddyfile/lexer.go:73-150 | loads exactly the next token of the state machine's token list, or reports that none is left; always moves forward |
| Lexer.Scanner.constructor | caddyfile/lexer.go:44-61 | a leading byte order mark is dropped, nothing else |
| Lexer.AllTokens | caddyfile/parse.go:41-52 | repeated calls give all tokens of the input |
| LexicalGrammar.LexIsGrammar | caddyfile/lexer.go:44-150 | every input, a byte order mark at its start apart, can be cut into blanks, comments, words and quoted strings, and for every such cut its tokens are those of the parts: a word up to its first hash sign without carriage returns, a quoted string with backslashes before quotes taken away |
| LexicalGrammar.PartsRun | caddyfile/lexer.go:73-150 | the same from any line on, with one plus the line breaks before it as the line of each token |
| LexicalGrammar.CommentSkipped | caddyfile/lexer.go:118-138 | a comment takes everything up to the end of its line or of the input, and nothing more |
| LexicalGrammar.CommentInWord | caddyfile/lexer.go:118-148 | a comment begun inside a word ends with the word, which is kept up to the hash sign |
| LexicalGrammar.MarkDropped | caddyfile/lexer.go:44-61 | a byte order mark in front of an input changes no token |
| LexerLines.TokenLines | caddyfile/lexer.go:73-150 | for every input, the tokens begin in order with the characters at their starts, or with the quotes there, and each token's line is one plus the line breaks before its start |
| LexerLines.ConsecutiveLines | caddyfile/lexer.go:73-150 | for every input, a token's line plus the breaks in its text is at most the next token's line |
| Atoms.AtomRoundTrip | caddyfile/json.go:139-144 | a printed string lexes back to one equal token if and only if backslash runs before quotes and at the end are even, or, unquoted, it is a plain word |
| Atoms.AtomFileRoundTrip | caddyfile/lexer.go:44-61 | the same for a whole file, where a leading byte order mark is lost |
| Atoms.AtomLexes | caddyfile/lexer.go:94-148 | a surviving string lexes to itself in front of any delimiter, and the lexer goes on as if between tokens |
| Atoms.PlainAtom | caddyfile/json.go:139-144 | a string is printed as it is if and only if it has no quote, space, tab, line feed or carriage return |
| EnvRefs.ReplaceEnvReferences | caddyfile/parse.go:430-448 | wherever the loop ends, its result has no start marker, or its first one is unclosed or names nothing |
| EnvRefs.TurnDropsBraces | caddyfile/parse.go:430-448 | with no opening brace in any value, each turn drops at least one opening brace |
| EnvRefs.PassEnds | caddyfile/parse.go:430-448 | with no opening brace in any value the loop ends on every string, in at most as many turns as it has opening braces |
| EnvRefs.EnoughTurns | caddyfile/parse.go:430-448 | however many turns are enough, the result is the same |
| EnvRefs.SubstituteToken | caddyfile/parse.go:422-426 | both syntaxes in turn, wherever both loops end; the second is settled in the result |
| EnvRefs.SubstitutionEnds | caddyfile/parse.go:422-448 | both loops end on every string when no value has an opening brace |
| EnvRefs.NoMarkers | caddyfile/parse.go:422-448 | in every environment both loops end on text without markers and leave it alone |
| EnvRefs.YieldsPass | caddyfile/parse.go:422-448 | with no opening brace in any value, what the loops leave is what the two passes give, and nothing else |
| EnvRefs.SelfReferenceNeverSettles | caddyfile/parse.go:430-448 | for a variable whose value is its own reference no number of turns is enough |
| EnvRefs.IndexIsFirst | caddyfile/parse.go:431-446 | the marker found is the first one |
| EnvTemplates.ReplaceNone | caddyfile/parse.go:441 | text in which a reference does not occur stays as it is |
| EnvTemplates.ReplaceFirst | caddyfile/parse.go:441 | the first occurrence gives way to the value, what is before it stays, and the same goes on behind it |
| EnvTemplates.NamesIff | caddyfile/parse.go:433-443 | the names that can be referred to as `{$NAME}` are those without a closing brace, and not empty; as `{%NAME%}`, those among others |
| EnvTemplates.UnixReference | caddyfile/parse.go:422-448 | in every environment marker-free text around `{$NAME}` yields that text around the value, and nothing else, as long as the value makes no marker there |
| EnvTemplates.WindowsReference | caddyfile/parse.go:422-448 | the same for `{%NAME%}` |
| EnvTemplates.ReferenceToReference | caddyfile/parse.go:422-426 | a value of `{%NAME%}` that is itself `{$OTHER}` gives way to the value of that name: the second pass sees what the first left |
| EnvTemplates.SubstitutionMeans | caddyfile/parse.go:422-448 | text with any number of references in both syntaxes yields exactly the text with the value of each in its place, when text between them holds no marker and values no opening brace |
| Dispensing.ArgOrLine | caddyfile/dispenser.go:68-104 | on freshly lexed tokens exactly one of same line and new line holds between neighbours |
| Dispensing.LineOfNext | caddyfile/dispenser.go:68-104 | of any two tokens exactly one holds if and only if the files differ or the second does not come before the end of the first; another file always starts a line |
| Dispensing.Dispenser.Next | caddyfile/dispenser.go:56-62 | advances exactly when there is a token after the cursor |
| Dispensing.Dispenser.NextArg | caddyfile/dispenser.go:68-83 | advances exactly when the next token continues the line |
| Dispensing.Dispenser.NextLine | caddyfile/dispenser.go:89-104 | advances exactly when the next token starts a later line |
| Dispensing.Dispenser.NextBlock | caddyfile/dispenser.go:112-135 | opens, walks and closes a block, with roll back when there is none, from a fresh dispenser too; nothing else moves |
| Dispensing.LoopEndsIff | caddyfile/dispenser.go:106-135 | looping on it ends if and only if a closing brace follows the opening one |
| Dispensing.VisitBlock | caddyfile/dispenser.go:106-135 | with a closing brace the loop visits exactly the tokens between the braces and stops on the closing one; where no block opens it visits nothing and moves nothing |
| Allowance.MoreImportsChangeNothing | caddyfile/parse.go:233-304 | an allowance of imports that is enough gives the one result, the same for every larger one |
| Allowance.ParseEnds | caddyfile/parse.go:62-225 | in every context a parse of an import-free input ends, and the allowance of imports has no effect on it |
| Allowance.SelfImportNeverEnds | caddyfile/parse.go:62-304 | no allowance is enough for the parse of an input that defines a snippet which imports itself, and imports it |
| Conservation.DirectiveConserves | caddyfile/parse.go:345-383 | without imports a directive takes a prefix of the unread tokens, substituted, with balanced braces and no prefix closing more than it opened |
| Conservation.AddressesConserve | caddyfile/parse.go:122-173 | the addresses read are exactly the address part of the input, each token once: up to a brace or an unannounced new line; the keys are its tokens substituted, empty ones skipped, a comma at the end cut |
| Conservation.BodyConserves | caddyfile/parse.go:202-225 | in every context the segments of a body, in order, are exactly its tokens up to substitution |
| Conservation.CoversAccounts | caddyfile/parse.go:202-225 | each directive of a body has balanced braces, none closed too early, if and only if the body does not start with a brace |
| Conservation.BlockConserves | caddyfile/parse.go:84-196 | in every context one turn reads a piece of the input: a site of addresses, opening brace, covered body and closing brace, a snippet under a new name, or addresses alone at the end; and the block has exactly the piece's addresses and directives |
| Conservation.SnippetConserves | caddyfile/parse.go:467-493 | a snippet holds exactly the tokens up to the brace that matches its opening one; it fails only when no later token closes that brace |
| Conservation.ParseConserves | caddyfile/parse.go:62-225 | in every context every import-free input ends in blocks or an error; on success it is cut into consecutive pieces, nothing left over and nothing twice, and the blocks are those of the pieces that have an address, in order, with all their directives |
| Pieces.OneWayToCut | caddyfile/parse.go:62-225 | there is only one way to cut an input into such pieces |
| Pieces.ParseDetermined | caddyfile/parse.go:62-225 | so however an import-free input is cut, a parse that succeeds has the blocks of those pieces |
| Pieces.KeptIffAddressed | caddyfile/parse.go:62-76 | in an import-free parse that succeeds a site is kept with all its directives if and only if one of its address tokens reads as something once substituted |
| Pieces.NothingDroppedIff | caddyfile/parse.go:62-76 | there are as many blocks as sites if and only if every site has an address |
| Pieces.DroppedSiteExample | caddyfile/parse.go:122-173 | an input that parses although its directive is in no block |
| Consumption.AcceptedIffCut | caddyfile/parse.go:62-225 | an import-free input is accepted if and only if it can be cut into pieces of that kind, each closed; the blocks are then those of the pieces |
| Consumption.PiecesTaken | caddyfile/parse.go:62-225 | pieces at the start of any input are read as such, whatever follows, and the parse goes on behind them with their blocks and snippets |
| Inlining.ImportIff | caddyfile/parse.go:233-304 | an import is refused for its arguments if and only if it does not have exactly one on its line that reads as something, fails if and only if that one, substituted, names no snippet and no files, and else is replaced by what the name stands for, a snippet before files |
| Inlining.BodyInlines | caddyfile/parse.go:202-225 | between directives, reading on with an import is reading on with what it stands for in its place |
| Inlining.DirectiveInlines | caddyfile/parse.go:345-383 | the same inside a directive, at the start of a line with a brace open |
| Inlining.ImportAsArgument | caddyfile/parse.go:345-383 | on the line of other tokens of a directive the word import is an argument |
| Inlining.AddressesInline | caddyfile/parse.go:122-173 | the same among addresses, at the start of a line |
| Inlining.ImportAtTop | caddyfile/parse.go:62-173 | after any import-free pieces, and any addresses that announce another, the parse of an input with an import is that of the input with the import replaced, whatever follows |
| Inlining.ImportOfNothing | caddyfile/parse.go:122-173 | an import at the end of the input that stands for no tokens ends the parse there, with the blocks before it |
| Inlining.ImportInSite | caddyfile/parse.go:175-225 | the same between the directives of a site, as long as the first token in its place would not continue the line of the directive before |
| Inlining.ImportInDirective | caddyfile/parse.go:345-383 | the same inside the block of a directive |
| Inlining.RefusedAtTop | caddyfile/parse.go:122-173 | an import that is refused among addresses ends the parse with its error, after the blocks before it |
| Inlining.RefusedInSite | caddyfile/parse.go:202-225 | so does one between directives |
| Inlining.RefusedInDirective | caddyfile/parse.go:345-383 | and one inside a directive |
| Inlining.SnippetNameIff | caddyfile/parse.go:457-464 | a block is a snippet if and only if its one key is in parentheses, and its name is what they enclose |
| Inlining.SnippetStands | caddyfile/parse.go:101-117 | under its name a snippet stands for the tokens between its braces |
| Refusals.BraceForAddress | caddyfile/parse.go:122-173 | a brace where a comma announced an address is refused, after any pieces, with the error for a missing address |
| Refusals.EndForAddress | caddyfile/parse.go:122-173 | the end of the input there, with the error for an early end |
| Refusals.SnippetAgain | caddyfile/parse.go:101-117 | a snippet under a name that is taken, with the error for that |
| Refusals.SnippetNotClosed | caddyfile/parse.go:467-493 | a snippet without an opening brace, or with one that is never closed, with the error for a missing brace |
| Refusals.UnknownName | caddyfile/parse.go:345-360 | a directive that is not on the list of valid ones, wherever it stands in a site, with the error for that |
| Refusals.SiteNotClosed | caddyfile/parse.go:175-196 | the end of the input in a site whose last token is no closing brace, with the error for a missing brace |
| Refusals.StrayBrace | caddyfile/parse.go:345-383 | a closing brace on the line of a directive without an open one, with the error for that |
| Refusals.DirectiveNotClosed | caddyfile/parse.go:345-383 | the end of the input inside the braces of a directive, with the error for an early end |
| Refusals.OnlyValidNames | caddyfile/parse.go:345-418 | in every parse, imports included and however it ends, every directive of every block is on the list of valid ones |
| BlockLoops.GroupIs | caddyfile/parse.go:345-383 | a block's tokens for a name are those of the directives with that name, one after the other |
| BlockLoops.LoopsEnd | caddyfile/dispenser.go:106-135 | on every directive an import-free parse hands on, every loop over a block ends, provided that substitution makes no opening brace and no directive is named by one |
| BlockLoops.MadeBraceExample | caddyfile/parse.go:345-383 | an input whose directive is handed on with a brace that substitution made, and the loop over it never ends |
| BlockLoops.EndlessLoopExample | caddyfile/dispenser.go:112-135 | a token list on which the loop never ends |
| ClosingBrace.UnclosedBlock | caddyfile/parse.go:175-196 | in every context an opened block whose directives are in order is accepted if and only if, on its tokens, some closing brace is its own, or the last token names no directive and reads as a brace once substituted |
| ClosingBrace.NamesAreHeads | caddyfile/parse.go:202-225 | the tokens that name directives are exactly those that start a line with all braces closed, and the first |
| ClosingBrace.OwnBraceIsBalance | caddyfile/parse.go:175-196 | unless a brace follows the opening one, having a closing brace of its own means that at some point all braces opened are closed |
| ClosingBrace.UnclosedBlockExample | caddyfile/parse.go:400-405 | a whole input that parses with the server block's brace missing |
| TokenSlices.Append | caddyfile/parse.go:298-301 | appending gives the concatenation; in place it overwrites only beyond the length, else in new memory |
| TokenSlices.TokenStore.Splice | caddyfile/parse.go:298-301 | the nested append is: tokens before the directive, imported tokens, tokens after its argument; every stored snippet keeps its contents and the list never shares memory with one |
| TokenSlices.TokenStore.SetText | caddyfile/parse.go:375 | substitution in place changes one token of the list and no snippet |
| TokenSlices.TokenStore.Define | caddyfile/parse.go:101-117 | a snippet in memory of its own is stored with its contents; the list and the others are as before |
| TokenSlices.TokenStore.Extend | caddyfile/parse.go:298-301 | cutting the list and appending keeps every snippet |
| Parser.Parser.DoImport | caddyfile/parse.go:233-304 | the list becomes the specified import, with the cursor before it; errors for missing, extra and unknown arguments |
| Parser.Parser.Directive | caddyfile/parse.go:345-383 | collects exactly the tokens of the specified scan, in memory |
| Parser.Parser.Directives | caddyfile/parse.go:202-225 | a body as specified, up to its brace |
| Parser.Parser.ReadAddresses | caddyfile/parse.go:122-173 | keys, commas, imports and the end of input as specified |
| Parser.Parser.SnippetTokens | caddyfile/parse.go:467-493 | the tokens up to the matching brace, in new memory |
| Parser.Parser.StoreSnippet | caddyfile/parse.go:101-117 | defines a new snippet, refuses a known one |
| Parser.Parser.BlockContents | caddyfile/parse.go:175-196 | a body with or without braces, and the check of the closing one |
| Parser.Parser.ParseOne | caddyfile/parse.go:78-120 | one turn as specified: a server block or a snippet |
| Parser.Parser.ParseAll | caddyfile/parse.go:62-76 | a whole parse on slices, with in-place splices and substitution, computes what the specification says on values |
| Parser.ParseText | caddyfile/parse.go:33-52 | lexing and parsing together |
| Parser.SnippetsKept | caddyfile/parse.go:101-117 | no turn changes or drops a stored snippet |
| JsonText.LexDoc | caddyfile/json.go:107-175 | the text printed for a document lexes to its tokens, each on the line it was printed on |
| JsonText.NestedText | caddyfile/json.go:107-175 | the exact text of a document with two keys, an argument and a nested block: separators, line ends and one tab for each block around a line |
| JsonBuild.ConstructLine | caddyfile/json.go:74-88 | moves the dispenser over one line, nested blocks included, and returns its tree |
| JsonBuild.ConstructBlock | caddyfile/json.go:93-104 | the lines of a block up to its closing brace |
| JsonBuild.EncodeBlock | caddyfile/json.go:38-57 | the body of a block is the same whatever order the map yields its keys in, blank names included |
| JsonBuild.OnceIffNamed | caddyfile/json.go:43-56 | each directive's lines come exactly once if and only if no directive without a name has tokens; else its lines come once for every directive before all others |
| TreeParse.ScanDoc | caddyfile/parse.go:62-225 | the tokens of a printed document parse to its server blocks |
| TreeBuild.BuildApart | caddyfile/json.go:74-104 | lines whose tokens stand apart are rebuilt exactly |
| TreeBuild.BuildGroup | caddyfile/json.go:50-56 | the tokens grouped under a directive rebuild exactly its lines, in order |
| RoundTrip.ByDirectiveIsStableSort | caddyfile/json.go:43-56 | the reordering is a stable sort by directive name, the identity exactly on ordered bodies |
| RoundTrip.TreeRoundTrip | caddyfile/json.go:29-175 | print, lex, parse and rebuild: the document with bodies stably sorted; the same document if and only if they were ordered |
| Conversion.FromJson | caddyfile/json.go:107-131 | the loops print the document |
| Conversion.ToJson | caddyfile/json.go:29-60 | lexes, parses and encodes; a parse error is passed on |
| Conversion.PrintAndRead | caddyfile/json.go:29-131 | the two conversions in a row, run as methods, give the sorted document |
| Conversion.PrintableInEnvironment | caddyfile/parse.go:422-448 | a good document without reference markers is in the domain of the round trip in every environment |
| Conversion.InEnvironmentSubstitutes | caddyfile/parse.go:422-448 | the two passes are the substitution of their environment when no value has an opening brace |
| Reordering.ReorderedExample | caddyfile/json.go:43-56 | a document with two directives that comes back with them exchanged |
| Names.SortedUnique | caddyfile/json.go:48 | two sorted arrangements of the same names are equal |
| HostNames.SelectIsClosest | caddyhttp/httpserver/vhosttrie.go:102-120 | the key selected covers the host with the fewest leading wildcards of all keys that do, the host itself first; none only if no key covers it |
| VHostTrie.Node.InsertPath | caddyhttp/httpserver/vhosttrie.go:55-66 | the entries below a node change at the inserted path only |
| VHostTrie.Node.MatchPath | caddyhttp/httpserver/vhosttrie.go:124-139 | the entry of the longest non-empty prefix of the path |
| VHostTrie.Trie.Insert | caddyhttp/httpserver/vhosttrie.go:45-51 | the log of insertions grows by this one; the trie stands for the new log |
| VHostTrie.Trie.MatchHost | caddyhttp/httpserver/vhosttrie.go:102-120 | overwriting labels in place selects the specified key's branch |
| VHostTrie.Trie.Match | caddyhttp/httpserver/vhosttrie.go:78-96 | answers what the log of insertions says |
| VHostTrie.ContentIsLast | caddyhttp/httpserver/vhosttrie.go:55-66 | under each path stands the site inserted last, unless that was nil |
| VHostTrie.AnswerIsLongest | caddyhttp/httpserver/vhosttrie.go:78-139 | in the host's branch, the site inserted last under the longest path that is a prefix of the request's; nothing when there is none, whatever other branches hold |
| VHostTrie.BranchIsFirst | caddyhttp/httpserver/vhosttrie.go:80-87 | the branch is that of the first name, of the host and the fallbacks in order, that any key covers |
| VHostTrie.CutKey | caddyhttp/httpserver/vhosttrie.go:142-147 | host and path make up the key, cut at the first slash; the path starts with a slash |
| VHostTrie.Trie.HostBeforeSlash | caddyhttp/httpserver/vhosttrie.go:142-147 | the host under which a key is filed and looked up is what comes before its first slash, normalised |
| ConfigGroup.GetConfig | caddytls/handshake.go:42-97 | by the client's name, or by the default one if it gave none; by local address if there is neither, else the key the trie's search would select, else the catch-all, else any; none only from an empty group |
| Upstream.FirstSelect | caddyhttp/proxy/policy.go:173-180 | the first available host |
| Upstream.DefaultIsOneFailure | caddyhttp/proxy/proxy.go:104-110 | the default check is the limit of one failure |
| Reservoir.RandomSelect | caddyhttp/proxy/policy.go:49-70 | an available host, none only if none is available; among them the one whose draw was the last zero |
| Reservoir.AllDrawsHas | caddyhttp/proxy/policy.go:57-66 | the enumeration of draws holds exactly the possible ones |
| Reservoir.AllDrawsOnce | caddyhttp/proxy/policy.go:57-66 | and none of them twice |
| Reservoir.EquallyLikely | caddyhttp/proxy/policy.go:49-102 | of the n! possible draws for n hosts in the running, each is chosen by (n - 1)! |
| Reservoir.LeastConnSelect | caddyhttp/proxy/policy.go:78-102 | an available host with the fewest connections of all available ones; among several, the one whose draw was the last zero |
| Upstream.AlwaysMeetsIffDistinct | caddyhttp/proxy/policy.go:111-138 | n looks at n hosts meet whatever is available exactly when no host is looked at twice |
| Probing.HostByHashing | caddyhttp/proxy/policy.go:127-138 | the first available host in the order of triangular probing, with the index cut to 32 bits; none if the probing meets none; panics exactly on an empty pool |
| Probing.SlotIs | caddyhttp/proxy/policy.go:127-138 | the first host looked at is that of the hash; look i is i (i + 1) / 2 further on, as long as no index reaches 2^32 |
| Probing.SlotsApart | caddyhttp/proxy/policy.go:127-138 | in a pool of a power of two hosts no two probes look at the same host |
| Probing.SlotsCollide | caddyhttp/proxy/policy.go:127-138 | for every other size some hash probes one host twice, wrap-around included |
| Probing.AlwaysFindsIffPowerOfTwo | caddyhttp/proxy/policy.go:127-138 | every hash finds an available host in every pool of n that has one if and only if n is a power of two, for all n from 1 below 2^32 |
| Probing.ThreeHostsExample | caddyhttp/proxy/policy.go:127-138 | three hosts, one of them never probed |
| RoundRobin.RoundRobin.Select | caddyhttp/proxy/policy.go:111-124 | picks and moves the 32-bit counter as specified |
| RoundRobin.PickIsFirst | caddyhttp/proxy/policy.go:111-124 | the pick is the first available host after the counter; none if no look meets one |
| RoundRobin.NeverFailsIffSafe | caddyhttp/proxy/policy.go:111-124 | from a counter value no pool of n makes the selection miss if and only if the counter does not wrap meanwhile, is about to wrap, or n divides 2^32 |
| RoundRobin.AlwaysFindsIffPowerOfTwo | caddyhttp/proxy/policy.go:111-124 | from every counter value the selection finds an available host if there is one, if and only if the pool's size is a power of two |
| RoundRobin.WrapExample | caddyhttp/proxy/policy.go:111-124 | three hosts and a counter near the wrap: the only available host is missed |
| RoundRobin.Fair | caddyhttp/proxy/policy.go:111-124 | k selections per available host, in a row, pick each exactly k times |
| Selection.Select | caddyhttp/proxy/upstream.go:688-710 | never panics; what is selected is available and is the policy's choice, the header policy included; none only if none is available or the policy may miss one, and for a hash exactly if no probe meets an available host |
| Connections.Accounting | caddyhttp/proxy/proxy.go:104-280 | in every reachable state of concurrent requests, each load and add a step and hosts kept while others are looked at, connections are the attempts in flight, failures the running timers, and connections plus pending requests at most MaxConns - 1 + K |
| Connections.AllGivenBack | caddyhttp/proxy/proxy.go:252-280 | when all requests are done and all timers have run out, both counts are zero |
| Connections.BoundIsReached | caddyhttp/proxy/proxy.go:112-120 | for every limit and every K some run has MaxConns - 1 + K connections |
| ConnectionHistory.CountsAreHistory | caddyhttp/proxy/proxy.go:186-286 | in every reachable state the connections of a host are the attempts begun on it less those ended, its failures the errors of requests on it, if it remembers them, less the timers run out, its health that of the last check, the requests pending on it those that picked it less those that dropped it or began; each attempt that ended in an error, and no other, is still to be counted or was; and the requests done are those served, refused or given up |
| ConnectionHistory.OnlyAvailableHosts | caddyhttp/proxy/proxy.go:104-200 | in every reachable state a request about to connect to a host has, since its last attempt, seen it healthy, then with fewer failures than its limit, then with room; one that is connected, or has failed, began so |
| ConnectionHistory.LooksAreAvailable | caddyhttp/proxy/proxy.go:104-120 | three looks with nothing in between leave a request pending on a host if and only if the host is available |
| FcgiRecords.HeaderFor | caddyhttp/fastcgi/fcgiclient.go:138-144 | header, content and padding make a multiple of eight; the length is right exactly below 2^16 |
| FcgiRecords.HeaderBytes | caddyhttp/fastcgi/fcgiclient.go:125-132 | eight bytes in the order of section 3.3 of the FastCGI Specification 1.0, 16-bit numbers high byte first |
| FcgiRecords.RecordReadsBack | caddyhttp/fastcgi/fcgiclient.go:151-173 | a well-formed record of any padding reads back, and nothing after it is touched; an end record ends |
| FcgiRecords.OnlyRecordsRead | caddyhttp/fastcgi/fcgiclient.go:151-173 | whatever reads as a record starts with the bytes of a well-formed one that has that type and content and is no end record |
| FcgiRecords.CutOff | caddyhttp/fastcgi/fcgiclient.go:151-173 | a record cut off anywhere is an error: the end of the file before its header or right behind it, else a short read |
| FcgiRecords.WrittenReadsBack | caddyhttp/fastcgi/fcgiclient.go:222-238 | a written record reads back with its type and content |
| FcgiRecords.LongDoesNotReadBack | caddyhttp/fastcgi/fcgiclient.go:138-144 | a content of 2^16 bytes or more does not |
| FcgiPairs.EncodeSize | caddyhttp/fastcgi/fcgiclient.go:285-293 | writes the one or four bytes of a length in place and touches no others |
| FcgiPairs.SizeReadsBack | caddyhttp/fastcgi/fcgiclient.go:285-293 | a length reads back if and only if it leaves the highest bit free |
| FcgiPairs.PairsReadBack | caddyhttp/fastcgi/fcgiclient.go:252-283 | encoded pairs decode to themselves by section 3.4 of the FastCGI Specification 1.0 |
| FcgiPairs.Cut | caddyhttp/fastcgi/fcgiclient.go:258-262 | a pair as sent fits a record; its value is cut only when lengths, name and value exceed the limit, and then just so that they meet it |
| FcgiWriter.Client.WriteRecord | caddyhttp/fastcgi/fcgiclient.go:222-238 | exactly one record's bytes go out |
| FcgiWriter.StreamWriter.Write | caddyhttp/fastcgi/fcgiclient.go:323-337 | records that together hold the data, none empty, none over the limit, all but the last full |
| FcgiWriter.StreamWriter.Close | caddyhttp/fastcgi/fcgiclient.go:339-342 | one empty record |
| FcgiWriter.BufWriter.Write | caddyhttp/fastcgi/fcgiclient.go:310-314 | data that fits stays in the buffer; in any case sent and buffered bytes are the old ones and the new in order, and all records sent but the last are full |
| FcgiWriter.BufWriter.Close | caddyhttp/fastcgi/fcgiclient.go:302-308 | what is buffered, then one empty record |
| FcgiRequest.WritePairs | caddyhttp/fastcgi/fcgiclient.go:252-283 | fails exactly when a name exceeds the limit less eight, with some of the pairs before it sent; else the pairs, values cut, in groups that fit a record and have no room for the next pair, one record a group, and one empty record |
| FcgiRequest.PairsArrive | caddyhttp/fastcgi/fcgiclient.go:222-342 | the bytes read back as those records, each decodes to whole pairs, none but the last is empty, and all together decode to the pairs |
| FcgiRequest.LogReadsBack | caddyhttp/fastcgi/fcgiclient.go:151-238 | all written records read back in order, whatever follows |
| FcgiRequest.BeginBody | caddyhttp/fastcgi/fcgiclient.go:240-243 | role, high byte first, flags and five zero bytes |
| FcgiRequest.Do | caddyhttp/fastcgi/fcgiclient.go:385-404 | a request is its beginning, its parameters and its body's bytes, each stream ended by an empty record; parameters that cannot be sent leave it unfinished after whole pairs |
| FcgiReader.Record.Read | caddyhttp/fastcgi/fcgiclient.go:151-173 | reads one record or fails as specified, consuming exactly what it should |
| FcgiReader.StreamReader.Read | caddyhttp/fastcgi/fcgiclient.go:349-381 | delivered, buffered and unread bytes make up what was to come; an error only after everything was delivered; standard error collected |
| FcgiReader.ReadMany | caddyhttp/fastcgi/fcgiclient.go:349-381 | the same over any sequence of read sizes |
| FcgiReader.ResponseArrives | caddyhttp/fastcgi/fcgiclient.go:349-381 | of any well-formed response, what is to come is the contents that are not standard error before the end record |
| ClientHello.ParseRawClientHello | caddyhttp/httpserver/mitm.go:237-335 | on any bytes it ends, stays in range, and keeps each part that was complete |
| ClientHello.HelloRoundTrip | caddyhttp/httpserver/mitm.go:237-335 | from every well-formed message it recovers version, cipher suites, compression methods, extension numbers in order, curves and points |
| ClientHello.OneCurves | caddyhttp/httpserver/mitm.go:302-317 | with one curves extension its curves are those found |
| ClientHello.OnePoints | caddyhttp/httpserver/mitm.go:318-328 | with one point formats extension its points are those found |
| HelloPrefixes.MessageOrNothing | caddyhttp/httpserver/mitm.go:237-246 | of fewer than 42 bytes nothing is read; else the version is, and the parse goes on if and only if header, version, random bytes and a session identifier of at most 32 bytes are there |
| HelloPrefixes.SuitesOrStop | caddyhttp/httpserver/mitm.go:247-262 | it goes on with exactly the suites that the bytes start with, or stops with what it has if they start with none |
| HelloPrefixes.CompressionsOrStop | caddyhttp/httpserver/mitm.go:263-273 | the same for compression methods |
| HelloPrefixes.BlockOrStop | caddyhttp/httpserver/mitm.go:275-283 | extensions are read if and only if their length is that of all the bytes left |
| HelloPrefixes.ExtensionOrStop | caddyhttp/httpserver/mitm.go:287-300 | extension by extension, as long as the bytes start with one |
| HelloPrefixes.NoteOrStop | caddyhttp/httpserver/mitm.go:297-328 | each number is noted, with its curves or points if its content is a list of them; another content of those two ends the parse |
| Ordering.AssertPresenceAndOrdering | caddyhttp/httpserver/mitm.go:695-718 | true if and only if some non-decreasing choice of places holds the items |
| Ordering.InOrderIsCollapsed | caddyhttp/httpserver/mitm.go:695-718 | that is the subsequence relation on the items with repeats in a row collapsed |
| Ordering.OrdinaryIffNoRepeats | caddyhttp/httpserver/mitm.go:695-718 | it is the subsequence relation itself, for every list, if and only if no two items in a row are equal |
| Lifecycle.Process.StartWithListenerFds | caddy.go:488-576 | the new instance is last in the list if every step succeeds; else the list is as before, exactly |
| Lifecycle.Process.Start | caddy.go:471-486 | the same for a first start, with its callbacks |
| Lifecycle.Process.StopInstance | caddy.go:137-158 | every server that can is told to stop, in order; the instance is out of the list, the others are in order |
| Lifecycle.Process.ShutdownCallbacks | caddy.go:164-179 | all callbacks run, and every failure is reported |
| Lifecycle.Process.Restart | caddy.go:184-270 | the list changes only after the new instance fully started, to old removed and new appended; every error, and only an error, runs the restart-failed callbacks once each |
| Lifecycle.FailureKeepsIffNoShutdownCallbacks | caddy.go:181-270 | a failed restart has kept the instance, whatever happens, if and only if it has no shutdown callbacks |
| Lifecycle.FailedAfterReplacing | caddy.go:184-270 | a restart that reports failure after the instance was replaced |
| Lifecycle.Process.StopAll | caddy.go:874-890 | stops the servers of all instances from the first on, and ends with an empty list |
| Lifecycle.Run | caddy.go:137-890 | over every run with any failures the list has no duplicates and its length is what successful starts and stops make it |
| LifecycleEvents.RunsAllAre | caddy.go:164-179 | all callbacks of an occasion run, in order, and nothing else |
| LifecycleEvents.RunsAre | caddy.go:207-212 | where a failure ends the run, a callback runs if and only if all those before it succeed, in order |
| LifecycleEvents.StopsAre | caddy.go:137-146 | a server is told to stop if and only if it can be stopped gracefully |
| LifecycleEvents.InTurnOnce | caddy.go:137-270 | what comes in such an order comes once |
| LifecycleEvents.StartEvents | caddy.go:488-545 | which callbacks run in a start: those of a first startup outside a restart, then those of a startup if they succeed, each up to a failure |
| LifecycleEvents.StartsIffAll | caddy.go:488-576 | a start succeeds if and only if none of its steps, callbacks included, fails |
| LifecycleEvents.RestartEvents | caddy.go:184-270 | exactly what happens in a restart, each once and in this order: its callbacks up to a failure; the startup callbacks of the new instance; if that started, the old servers that can be are told to stop, and the shutdown callbacks run up to a failure; on any error all restart-failed callbacks |
| LifecycleEvents.ShutdownEvents | caddy.go:164-179 | all shutdown callbacks, then all final ones, each once |
| LifecycleEvents.StopAllEvents | caddy.go:874-890 | every server of every instance that can be stopped gracefully is told so, and nothing else happens |
| LifecycleEvents.StopAllOnce | caddy.go:874-890 | and each is told once |

## Left out

- Opening, globbing and resolving imported files (caddyfile/parse.go:254-296, 308-337): the tokens an import pattern stands for are an arbitrary parameter, or none when importing fails.
- Termination with imports: a parse carries the number of imports it may still make and says so when it is used up; `Allowance` proves that this number has no other effect.
- Numbers and booleans in JSON trees, and JSON encoding itself: trees hold strings and arrays.
- Input that is not valid UTF-8, and read errors of the lexer's reader: text is a sequence of characters.
- File names of tokens and error messages: errors are told apart by kind only.
- Lexer.Scanner.Next: `unicode.IsSpace` is written out as the list of its characters.
- Lower-casing and port stripping in `splitHostPath`, and `certmagic.NormalizedName`: arbitrary functions on host names.
- `vhostTrie.String` and the site configurations themselves.
- ConfigGroup.GetConfig: the configuration taken when no name matches is any one, as map iteration order is.
- Reservoir.RandomSelect: that random numbers reduced by a count are evenly spread; draws are counted, not weighed.
- Availability of hosts changing during one selection, except in `Connections`, where every load is a step.
- Overflow of `Conns` and `Fails`, health checks by HTTP, retry timing, header and body handling of the proxy.
- FcgiWriter.BufWriter.Write: of `bufio.Writer` only `Write`, `WriteString` and `Flush` are modelled, and writes to the connection succeed; the request body comes as any sequence of writes.
- FcgiRequest.WritePairs: parameters come as a sequence, in place of a map's arbitrary order.
- HTTP responses over FastCGI, connection handling and timeouts.
- Reassembly of client hellos over several reads (caddyhttp/httpserver/mitm.go:174-223) and the browser fingerprint tables built on the order check.
- Panics and recovery in `Restart`, upgrades, listeners and their file descriptors, servers left running by a start that fails half-way, telemetry, events, pid files, logging and signals.
- Lifecycle.Process.Restart: the instance list is a sequence; the memory its slices share is not modelled.
- Certificates, ACME and TLS handshakes; directive setup, templates, middleware and plugins.
