# YAML model

A model of this YAML library and proofs about it: the reader, the scanner, the parser and the
emitter, which work on explicit state with loops and stacks, and the node tree, decoder and
encoder on top of them.

Code that changes state is modelled by classes whose methods change the same fields and loop
the same way. Each method is proved to do what a reference function says (for the state machines
one step of it, the reference step, with the error cases), and the properties are lemmas about
these functions, over all inputs and all runs. Where the source pops, indexes or panics on
a case it takes for impossible, it is part of the proofs that the case cannot be reached.

- **Scalars** (`Chars`, `Utf8`, `ScalarText`, `FlowScalar`, `PlainScalar`, `BlockScalar`,
  `ScalarAnalysis`, `StyleSelection`, the classes `ScalarEmitter.Emitter` in Emitter.dfy and
  `ScalarScanner.Scanner` in Scanner.dfy). The writers and the scanners are inverse in
  the double-quoted, single-quoted and plain styles (`FlowRoundTrip`, `PlainRoundTrip`) on all
  values that the analysis allows, at every width, margin and position. For the literal and the
  folded style the exact condition is proved (`LiteralRoundTrip`, `LiteralLimits`,
  `FoldedRoundTrip`), for tags too (`AnchorsAndTags`). What others write is read as YAML 1.2 says
  (`LineFolding`, `FlowReading`, `PlainReading`, `BlockReading`). `LineWidth` judges where lines
  are folded, `EmittedText` shows that the reader lets the text through, `SimpleKeyText` that
  simple keys stay short.
- **Parser** (`Events`, `ParserMachine`, `ParserSafety`, `Parser`, `ParserCompleteness`,
  `FlowPairs`, `ParserErrors`). Every run over every token list is well nested and ends; every
  tree is read from its tokens however it is spelled, pairs in flow sequences exactly where the
  production holds, and tokens out of place are refused.
- **Trees** (`NodeTree`, `TreeBuilder`, `StreamLoading`). From tokens to trees and back to
  events, over whole streams.
- **Scanner in block context** (`TokenQueue`, `Indentation`, `BlockMachine`, `BlockScanner`,
  `BlockBrackets`, `BlockLayout`). Indentation levels, simple keys and insertion into a queue that
  is being handed out; blocks are closed where the columns say, and a text laid out in blocks
  gives the tokens of its tree.
- **Emitter state machine** (`EmitterMachine`, `EmitterSafety`, `EmitterShape`, `EventEmitter`).
  Events come in one at a time, seeing a few ahead is as good as seeing all, and where the
  machine stands is told by the events alone.
- **Reader** (`Decoding`, `DecodingErrors`, `Reader`). Two sliding buffers, any schedule of short
  reads.
- **Decoder** (`NodeGraph`, `AliasBudget`, `MergeKeys`, `MergeLimits`, `MergeDecoder`). Exactly
  when a graph with cycles is decoded, in linear work; merge keys through a shared accumulator.
- **Key order** (`KeyOrder`) and **origin record** (`OriginRecord`).
- `Basics` holds a few facts about sequences.

A `string` is a sequence of Unicode scalar values, which is what a valid UTF-8 value is; module
`Utf8` relates the byte predicates of the source to those on characters.

What the proofs brought out about the code, which the model follows:

- A literal scalar that begins with a line break loses it, because the header line has no break
  of its own before the content, and the indentation hint is the best indent even where the
  indentation is another (emitterc.go:1848-1908). `LiteralLimits.LiteralReadsIff` says exactly
  which values survive.
- A folded scalar looks at the beginning of the value to decide whether a line feed must be
  doubled, and folds lines that begin with white space (emitterc.go:1944-1970). So `a`, a line
  feed and ` b` come back with one line feed more; `FoldedRoundTrip.FoldedReadsIff` says exactly
  which values survive.
- A tag that is all of the prefix of a directive other than `!` is written as the handle alone,
  which the scanner refuses (emitterc.go:1243-1249, scannerc.go:2131-2135).
- In a flow sequence a KEY directly followed by VALUE, FLOW-ENTRY or FLOW-SEQUENCE-END skips that
  token, against the production in the comment (parserc.go:990-1010). So `[? : v]` and `[?]` are
  refused, while `[? :]` is read; `FlowPairs.EntryReadIff` says exactly which pairs are read.
  Events stay well nested.
- The comment on the origin record gives a sequence's items as pairs of line delta and column
  (origin.go:35-48); the code writes the item's value in front of each pair, and these triples
  are what is read back.
- The comment at decode.go:546 gives 396,000 to 400,000 as the decodes allowed inside aliases. The
  upper number holds only up to 404,494 decodes in all and at 4,000,000; in between up to
  1,199,001 are allowed (`AliasBudget.CommentHoldsIff`).
- A field of a merge source whose key is a quoted `<<` is lost, since the text of the merge key
  itself is among the fields taken (decode.go:905-967). `MergeLimits.DecodesPlainMergeIff` says
  exactly when that changes the result.
- Keys that are equal as float64 are ordered by their kinds, so a large integer may come before
  a smaller float (sorter.go:40-49); `KeyOrder.KindsByValueIff` says when.
- `is_bom` ignores its index (yamlprivateh.go:103-105), so every character of a value that begins
  with a byte order mark is escaped.
- The open-ended flag set for a `+` hint is cleared again as the hint is written
  (emitterc.go:1858-1886).
- Anchors are not forgotten between documents, so an alias may name one of an earlier document
  (decode.go:63-70).
- STREAM-END may be fetched again until enough tokens are queued (scannerc.go:657-684); the
  repeats open and close nothing and come behind the first.

## Model

| member | source | states |
|---|---|---|
| Utf8.WidthAndCodePoint | yamlprivateh.go:181-198 | on the UTF-8 bytes of any character, `width` gives the number of its bytes, and shifting and masking them gives its code point (section 3 of RFC 3629) |
| Utf8.PredicatesAgree | yamlprivateh.go:48-178 | on the UTF-8 bytes of any character, `is_break`, `is_printable`, `is_blank`, `is_blankz` and `is_alpha` answer exactly what the predicates on characters answer; so the rest may speak of characters |
| Utf8.TextAgrees | yamlprivateh.go:48-198 | the same at every character of any UTF-8 text, wherever it sits among the bytes |
| Utf8.BomAgrees | yamlprivateh.go:103-105 | `is_bom` at any index holds exactly when the text begins with a byte order mark: the index is ignored |
| Utf8.EncodeAllInjective | yamlprivateh.go:181-198 | texts with equal bytes are equal, so a round trip on characters is one byte for byte |
| ScalarEmitter.Emitter.AnalyzeScalar | emitterc.go:1255-1406 | the flags set while looping over the value are exactly the safety properties of the value that the round trips need: plain in flow and in block context, single-quoted, block, multi-line |
| ScalarEmitter.Emitter.InspectCharacters | emitterc.go:1330-1367 | the running flags for special characters, tabs, breaks, and for a space before or after a break say whether one occurs anywhere in the value |
| ScalarEmitter.Emitter.InspectIndicators | emitterc.go:1287-1328 | the running indicator flags say whether the value looks like a document marker or holds an indicator anywhere, in flow and in block context |
| ScalarEmitter.Emitter.SelectScalarStyle | emitterc.go:1004-1050 | the assignments to the style, one after the other, end in the style that the selection function gives, or in the error for a value with neither tag nor implicit flags |
| ScalarEmitter.Emitter.WriteIndent | emitterc.go:1490-1515 | the text and the pen position after indenting, foot indent included, for every column, indent and pair of flags |
| ScalarEmitter.Emitter.WriteEscape | emitterc.go:1740-1816 | the loop over shifts writes the fixed-width upper-case hexadecimal digits of the code point, or the one-letter escape |
| ScalarEmitter.Emitter.WriteDoubleQuoted | emitterc.go:1727-1846 | appends exactly the text whose reading DoubleQuotedRoundTrip is about and leaves the pen where that text ends |
| ScalarEmitter.Emitter.WriteSingleQuoted | emitterc.go:1668-1725 | appends exactly the text whose reading SingleQuotedRoundTrip is about and leaves the pen where that text ends |
| ScalarEmitter.Emitter.WritePlain | emitterc.go:1609-1666 | appends exactly the text whose reading PlainRoundTrip is about; the document is open-ended only in the root context |
| ScalarEmitter.Emitter.WriteBlockScalarHints | emitterc.go:1848-1888 | writes the indentation and chomping hints of the value; the open-ended flag is off afterwards, since writing the `+` clears what was set for it |
| ScalarEmitter.Emitter.WriteLiteral | emitterc.go:1890-1925 | appends exactly the text whose reading LiteralReadsIff is about and leaves the pen where that text ends |
| ScalarEmitter.Emitter.WriteFolded | emitterc.go:1927-1983 | the loop with its look-ahead from the beginning of the value appends the text whose reading FoldedReadsIff is about; on the values that the analysis allows, no look-ahead leaves the value |
| ScalarEmitter.Emitter.ProcessAnchor | emitterc.go:1053-1065 | `&` or `*` and the anchor, separated from what precedes, or nothing: the text that AnchorReads and SimpleKeyFits are about |
| ScalarEmitter.Emitter.AnalyzeTag | emitterc.go:1238-1252 | the loop over the directives splits the tag at the first prefix that it begins with, as TagComesBackIff asks, and refuses only the empty tag |
| ScalarEmitter.Emitter.WriteTagContent | emitterc.go:1555-1607 | characters that may stand in a tag stay, every byte of the others becomes `%` and two digits: the text that UriReads is about |
| ScalarEmitter.Emitter.ProcessTag | emitterc.go:1068-1094 | a handle and a suffix, or `!<`, the suffix and `>`, or nothing: the text that TagTextReads and SimpleKeyFits are about |
| ScalarEmitter.Emitter.ProcessScalar | emitterc.go:1097-1115 | each style goes to its own writer, the folded one included |
| ScalarEmitter.Emitter.EmitScalar | emitterc.go:889-910 | analysis, choice of the style, anchor, tag and value together append the node's text in any style, at a margin one level deeper and back again, or fail exactly when nothing may be chosen |
| ScalarScanner.Scanner.ReadLine | scannerc.go:568-599 | CR LF, CR, LF and NEL become one LF, LS and PS stay, and the position and column are just past the break |
| ScalarScanner.Scanner.ScanEscape | scannerc.go:2505-2609 | an escape appends its character, with the hexadecimal digits and the range of code points checked, or gives the error of the reference function, which QuotedTextReads and FlawedTextFails are about |
| ScalarScanner.Scanner.ScanFlowScalar | scannerc.go:2446-2699 | the nested loops read the value, or find the error, that the tail-recursive reference function gives, and stop just past the closing quote |
| ScalarScanner.Scanner.ScanPlainScalar | scannerc.go:2702-2843 | the nested loops read the value that the reference function gives, with its end before the trailing blanks, and allow a simple key exactly if a line was left |
| ScalarScanner.Scanner.ScanBlockScalar | scannerc.go:2190-2384 | header, lines and chomping read the value, or find the error, that the reference function gives |
| ScalarScanner.Scanner.ScanBlockBreaks | scannerc.go:2388-2443 | eats indentation and empty lines, detects the indentation where it is unknown, and refuses a tab in it |
| ScalarScanner.Scanner.ScanAnchor | scannerc.go:1898-1950 | the loop reads the name and checks what follows it, as AnchorReads asks |
| ScalarScanner.Scanner.ScanTagHandle | scannerc.go:2041-2083 | reads `!`, letters and a closing `!` if there is one; in a directive the latter must be there |
| ScalarScanner.Scanner.ScanUriEscapes | scannerc.go:2144-2187 | the loop reads as many `%` bytes as the first one says, or gives the error |
| ScalarScanner.Scanner.ScanTagUri | scannerc.go:2086-2141 | the loop reads the characters and bytes of a suffix behind what has been read of it |
| ScalarScanner.Scanner.ScanTag | scannerc.go:1956-2038 | verbatim, named and local tags are told apart and read as TagTextReads says, or refused |
| FlowReading.QuotedTextReads | scannerc.go:2446-2699 | every quoted text, whoever wrote it, is read as its value: words, white space, folds of any line ends, escaped line ends, every escape letter with its character, and `\x`, `\u`, `\U` with hexadecimal digits in any mixture of cases (YAML 1.2 sections 5.7, 6.5 and 7.3) |
| FlowReading.HexReads | yamlprivateh.go:63-77 | digits in any mixture of cases have the value that they spell, each of the 22 its own |
| FlowReading.FlawedTextFails | scannerc.go:2493-2609 | a quoted text that runs into an unknown escape, a digit that is none, a code point that is none, or the end of the input is refused with that error |
| FlowReading.MarkedTextFails | scannerc.go:2456-2480 | a document marker at the beginning of a line inside a quoted text is refused |
| PlainReading.PlainTextReads | scannerc.go:2702-2843 | every plain text, whoever wrote it, is read as its words and gaps, folds of any line ends included, up to behind its last word, in front of everything that may end it, in block and flow context |
| BlockReading.BlockTextReads | scannerc.go:2190-2443 | every literal or folded block scalar is read as the value of its lines: header in any order with comment, indentation given or detected, empty lines, folding, chomping, any line ends (YAML 1.2 sections 6.5 and 8.1) |
| BlockReading.EmptyBlockReads | scannerc.go:2190-2443 | a block scalar without any line is empty, or its empty lines if these are kept |
| FlowRoundTrip.EscapeReads | emitterc.go:1740-1816 | every escape that is written, short, `\x`, `\u` or `\U`, is read back as its character |
| FlowRoundTrip.DoubleQuotedRoundTrip | emitterc.go:1727-1846 | for every value, width, line break, margin of at least 1, escaping and position on the line, scanning the written text gives the value and stops just past it; folded spaces included |
| FlowRoundTrip.SingleQuotedRoundTrip | emitterc.go:1668-1725 | the same for single quotes whenever the analysis allows them: runs of n breaks written as n+1, mixed LF and LS/PS, leading and trailing breaks, doubled quotes |
| PlainRoundTrip.PlainIsRecognised | scannerc.go:860-875 | the token fetcher dispatches the text of a plain value to the plain scanner, and not to a comment, document marker or indicator |
| PlainRoundTrip.PlainRoundTrip | emitterc.go:1609-1666 | in block and in flow context: whenever the analysis allows it, the text, folded at any width, is dispatched as plain, scanned back to the value, and the token ends where the text ends |
| PlainRoundTrip.PlainReadBeforeNext | emitterc.go:1609-1666 | the plain round trip in front of whatever may come next, at every level: the end, the `:` of a key, a flow indicator, or a line break with the end, a line no deeper than the enclosing level or a document marker behind it |
| PlainRoundTrip.DedentTerminates | scannerc.go:2823-2826 | a line no deeper than the enclosing level ends a plain scalar in block context, as PlainRoundTrip asks of what follows |
| PlainRoundTrip.DocumentMarkerTerminates | scannerc.go:2717-2726 | at every level, the root included, `---` or `...` before a blank on the next line ends a plain scalar |
| PlainRoundTrip.LastBreakTerminates | scannerc.go:2734-2827 | at every level a line break at the end of the input ends a plain scalar |
| LiteralRoundTrip.LiteralRoundTrip | emitterc.go:1848-1925 | for every block value that does not begin with a break, and whose hint is true if it begins with a space, the scanner finds the indentation, reads the value with 0, 1 or more trailing breaks, and ends the token in front of these |
| LiteralLimits.LiteralReadsIff | emitterc.go:1848-1925 | for every value that the analysis allows in block style: it is read back if and only if it does not begin with a break and, beginning with a space, stands at exactly the indentation that its hint names |
| LiteralLimits.LeadingBreakIsLost | emitterc.go:1898-1908 | a value that begins with a break is never read back: the header line eats the first break |
| LiteralLimits.WrongHintDiffers | emitterc.go:1848-1854 | the hint is always the best indent: at any other indentation a value that begins with a space is read back changed |
| LiteralLimits.LostLineFeed | emitterc.go:1848-1925 | a concrete value, a line feed and a letter, that the analysis allows in block style and that is lost |
| LiteralLimits.WrongHintExample | emitterc.go:1848-1854 | a concrete value, a space and a letter at indent 2 with best indent 4, that is not read back |
| FoldedRoundTrip.FoldedReadsIff | emitterc.go:1848-1983 | for every value that the analysis allows in block style: written folded, it is read back if and only if it does not begin with a break, its hint is true if it begins with a space, every fold stands between lines that begin with no white space, and every line feed behind such a line stands where the next line begins as the value does (or alone at the end) |
| FoldedRoundTrip.HeardIff | emitterc.go:1943-1981 | what the scanner makes of the written lines is the value exactly if every fold and every line feed is one that is kept; one position is named at which the two differ otherwise |
| FoldedRoundTrip.ParagraphsComeBack | emitterc.go:1927-1983 | lines that begin with no white space, with any breaks between them and at most one at the end, always come back, at every width |
| FoldedRoundTrip.FeedBeforeSpace | emitterc.go:1944-1955 | a concrete value, `a`, a line feed and ` b`, that is not read back: the line feed is doubled though the next line begins with a space |
| FoldedRoundTrip.TwoFeedsAtEnd | emitterc.go:1944-1955 | a concrete value, `a` and two line feeds, that is not read back |
| LineWidth.PlainFilled | emitterc.go:1609-1666 | judged from the written text alone, for a value without breaks: no line is broken within the best width, and beyond it every single space is |
| LineWidth.SingleFilled | emitterc.go:1668-1725 | the same between single quotes |
| LineWidth.DoubleFilled | emitterc.go:1727-1846 | the same between double quotes, where the first of several spaces behind a fold has a backslash in front |
| StyleSelection.ChosenStyleIsSafe | emitterc.go:1004-1050 | whatever style is asked for, the style chosen is one that the analysis allows in this context, and a simple key with a break is always double-quoted |
| StyleSelection.StyleKeptIff | emitterc.go:1004-1050 | the style asked for is kept if and only if it suits the value where it stands and nothing forces double quotes; a plain scalar falls back to single quotes where these suit, everything else to double quotes; the tag is forced exactly for what would otherwise be resolved as plain; an error exactly with neither tag nor implicit flags |
| StyleSelection.OrdinaryTextKeepsItsStyle | emitterc.go:1255-1406 | text of printable characters that are no indicators, with spaces, dashes and dots inside and also `-1` or `.5` in front, suits every style, so it is written in the one asked for |
| StyleSelection.BlockPhraseStaysPlain | emitterc.go:1255-1406 | in a block any printable text may be plain that begins like no indicator and has no `:` in front of a space or the end and no `#` behind a space |
| StyleSelection.ScalarRoundTrip | emitterc.go:889-910 | whatever style an event asks for, the text written is recognised as a scalar, and read back as the value if and only if the value comes back from the chosen style: always if quoted or plain, on the exact conditions of LiteralReadsIff and FoldedReadsIff in block style |
| EmittedText.ScalarTextIsRead | readerc.go:364-381 | in every style each character of an emitted scalar is one the reader accepts, and the emitted text behind a byte order mark decodes to itself |
| SimpleKeyText.EscapeBound | emitterc.go:1740-1816 | an escape is at most four characters for each byte of its character, on one line |
| SimpleKeyText.TagBound | emitterc.go:1541-1607 | a written tag is at most three characters a byte of its suffix, and on one line |
| SimpleKeyText.SimpleKeyFits | emitterc.go:970-1001 | what the emitter treats as a simple key is one line of fewer than 1024 characters, whatever style and escaping are chosen, so the scanner still accepts the key at its `:` (YAML 1.2 section 7.4.2) |
| AnchorsAndTags.AnchorReads | scannerc.go:1898-1950 | an anchor or alias that is written is read back in front of everything that may follow one |
| AnchorsAndTags.UriReads | scannerc.go:2086-2187 | the content of a tag comes back byte for byte, percent escapes decoded |
| AnchorsAndTags.TagTextReads | scannerc.go:1956-2038 | a written tag is read back as its handle and suffix; `!` alone as the verbatim tag of that name; another handle without a suffix is refused |
| AnchorsAndTags.TagComesBackIff | emitterc.go:1238-1252 | abbreviated by the directives in force, written, scanned and resolved under the same directives, a tag comes back if and only if it is not all of the prefix by which it is abbreviated, other than `!` by itself |
| AnchorsAndTags.BarePrefixIsLost | emitterc.go:1238-1252 | a concrete tag, `tag:yaml.org,2002:`, that is written as `!!` and refused |
| Events.StreamIffAccepted | parserc.go:29-66 | an event list is STREAM-START (DOC-START node DOC-END)* STREAM-END by derivation if and only if the acceptor with a stack takes it to the end |
| Events.PrefixIffAccepted | parserc.go:29-66 | the acceptor takes an event list if and only if it is the beginning of some stream |
| Events.Settled | parserc.go:29-66 | whatever is owed can be settled: there are events that lead from it to the end of the stream |
| ParserSafety.StepIsGood | parserc.go:150-226 | a step from any state of the invariant never pops an empty return or mark stack, keeps the invariant, gives an event that may come next, and lowers a measure of tokens left and rank of state |
| ParserSafety.RunIsAccepted | parserc.go:150-226 | over a whole run from any such state: the events fit what was owed, an ended run settles it, and there are no more events than the measure |
| ParserSafety.EventsAreWellNested | parserc.go:119-226 | for every token list, well formed or not: the events before an error or the end begin a stream, an ended run is a stream, the run ends, and there are at most 5 events a token and 1 |
| ParserSafety.DirectivesAreGood | parserc.go:1176-1235 | after the directives of a document no handle is there twice and the default handles are in force |
| ParserSafety.NodeIsGood | parserc.go:455-681 | a node, with or without properties, aliases and empty nodes included, leaves the stacks as its return state expects |
| Parser.Parser.Peek | parserc.go:68-75 | gives the token at the head or the scanner's failure, and moves nothing |
| Parser.Parser.ParseStreamStart | parserc.go:231-248 | does the reference step on the object's fields |
| Parser.Parser.ParseDocumentStart | parserc.go:255-355 | the implicit and the explicit start, with directives processed, do the reference step |
| Parser.Parser.ReadDirectives | parserc.go:1176-1235 | collects version and tags, refuses a second version and a repeated handle, and adds the defaults |
| Parser.Parser.AppendTagDirective | parserc.go:1238-1258 | a repeated handle is refused unless duplicates are allowed, and then ignored |
| Parser.Parser.ParseDocumentContent | parserc.go:361-378 | an absent root is an empty scalar; otherwise a block node |
| Parser.Parser.ParseDocumentEnd | parserc.go:385-416 | does the reference step and forgets the tag directives |
| Parser.Parser.ParseNode | parserc.go:455-681 | properties in either order, tag resolution and every kind of content do the reference step |
| Parser.Parser.ParseBlockSequenceEntry | parserc.go:687-739 | does the reference step, the error that pops the mark included |
| Parser.Parser.ParseIndentlessSequenceEntry | parserc.go:744-778 | does the reference step; the end consumes no token |
| Parser.Parser.ParseBlockMappingKey | parserc.go:816-879 | does the reference step, the error that pops the mark included |
| Parser.Parser.ParseBlockMappingValue | parserc.go:891-914 | does the reference step; a missing value is an empty scalar |
| Parser.Parser.ParseFlowSequenceEntry | parserc.go:928-988 | does the reference step; a KEY begins a mapping of one pair |
| Parser.Parser.ParseFlowSequenceEntryMappingKey | parserc.go:995-1010 | does the reference step, the skipped token of an empty key included |
| Parser.Parser.ParseFlowSequenceEntryMappingValue | parserc.go:1016-1034 | does the reference step |
| Parser.Parser.ParseFlowSequenceEntryMappingEnd | parserc.go:1040-1052 | does the reference step |
| Parser.Parser.ParseFlowMappingKey | parserc.go:1066-1127 | does the reference step; the first token, used without a check, is there |
| Parser.Parser.ParseFlowMappingValue | parserc.go:1133-1155 | does the reference step |
| Parser.Parser.StateMachine | parserc.go:150-226 | from every reachable state the dispatch does the reference step, and the panic for an unknown state is not reached |
| Parser.Parser.Parse | parserc.go:119-130 | keeps the invariant between calls; after the end or an error there are no more events and nothing changes |
| Parser.Parser.ParseAll | parserc.go:119-130 | repeated calls come to an end with exactly the events of the reference run |
| ParserCompleteness.NodeIsRead | parserc.go:455-681 | from any state that expects a node, the tokens of any tree give exactly the tree's events and lead back to the state on top of the stack, however it is spelled: anchor and tag in either order, empty nodes without a token, nodes of an anchor or tag alone, KEY or VALUE left out, a comma behind the last node of a flow collection |
| ParserCompleteness.CollectionRuns | parserc.go:687-1155 | the same for block, indentless and flow collections, their contents by induction |
| ParserCompleteness.DocumentRuns | parserc.go:255-416 | the tokens of a document, with directives or, as the first, without DOCUMENT-START, with or without a root, and with tags in any spelling, give its events and leave both stacks empty |
| ParserCompleteness.StreamIsRead | parserc.go:119-226 | every list of documents is parsed to the end as exactly its events, in all these spellings: with directives, tags verbatim or through the handles in force, anchor before or behind the tag, nodes and roots that have no token, and a first document with or without DOCUMENT-START |
| ParserCompleteness.DirectivesAreRead | parserc.go:1176-1235 | a version and any tag directives without a repeated handle are collected in order, with the defaults behind them |
| ParserCompleteness.SameRuns | parserc.go:455-510 | in a document the events do not depend on whether a tag is spelled verbatim or through any handle that resolves to it |
| ParserCompleteness.EmptyKeyLosesToken | parserc.go:995-1010 | in a flow sequence an empty key loses the token behind its KEY, whatever comes next, against the production in the comment; unless that is a VALUE, the pair ends, and is refused if and only if neither a comma nor the end follows |
| ParserErrors.DirectivesTakenIff | parserc.go:1176-1235 | directives are taken if and only if there is at most one version among them, which is 1.1, and no handle twice |
| ParserErrors.DocumentEndsAreSkipped | parserc.go:262-269 | any number of DOCUMENT-END tokens may stand in front of a document that is not the first |
| ParserErrors.TagsResolve | parserc.go:530-549 | a handle stands for what the document's own directive says, else `!` for itself, `!!` for `tag:yaml.org,2002:`, and any other for nothing |
| ParserErrors.UndefinedIff | parserc.go:530-549 | a node is refused for its tag if and only if the handle stands for nothing |
| ParserErrors.NoContentIff | parserc.go:455-681 | a node is refused for want of content if and only if it begins with neither content, nor an anchor or a tag, nor an alias |
| ParserErrors.OutOfPlaceIff | parserc.go:687-1155 | a collection is refused exactly where a token is out of place: neither entry nor end in a block sequence, neither KEY nor end in a block mapping, neither comma nor end behind a node of a flow collection; and with the complaint that goes with it |
| FlowPairs.EntryReadIff | parserc.go:990-1052 | a pair in front of a comma or the end gives MAPPING-START, key or empty, value or empty, MAPPING-END and ends just behind itself, as the production promises, if and only if the token behind KEY is none of VALUE, FLOW-ENTRY and FLOW-SEQUENCE-END, or a VALUE with nothing behind it |
| FlowPairs.SequenceReadIff | parserc.go:928-1052 | a flow sequence of any nodes and pairs gives its events and returns just behind its end if and only if each of its pairs has a key, or a VALUE with nothing behind it |
| FlowPairs.EmptyKeysFromTheBeginning | parserc.go:119-226 | from the initial state, the tokens of `[? : v]` and of `[?]` are refused behind an empty pair, and those of `[? :]` are read to the end |
| TreeBuilder.Builder.ParseTop | decode.go:148-169 | on every event list that the parser can produce: no panic is reached; it gives a document whose tree is that of the events it took, or the end, or an error where the parser failed or an alias names no anchor before it |
| TreeBuilder.Builder.ParseDocument | decode.go:210-220 | a document's tree is that of the events between its start and its end |
| TreeBuilder.Builder.ParseNode | decode.go:148-169 | takes exactly the events of one node and builds the tree that they spell; no panic is reached |
| TreeBuilder.Builder.ParseAlias | decode.go:222-230 | an alias refers to the last anchor of its name before it, also one of an earlier document; it is refused if there is none |
| TreeBuilder.Builder.ParseScalar | decode.go:232-260 | takes the one event and builds its node with its default or requested tag |
| TreeBuilder.Builder.ParseSequence | decode.go:262-296 | builds the items between the brackets, in order |
| TreeBuilder.Builder.ParseMapping | decode.go:298-366 | builds keys and values alternately, and always both |
| TreeBuilder.NodeEncoder.EncodeNode | encode.go:432-577 | emits the events of a node one after the other, as the reference function lists them |
| NodeTree.TagsRoundTrip | resolve.go:96-114 | the long form of the short form is the tag itself if and only if the tag is not written short already |
| NodeTree.AnchorsAreLast | decode.go:141-146 | an alias stands for the last node before it that carries its anchor, and for none if there is none |
| NodeTree.TagsOfNodes | decode.go:232-260 | a requested tag is kept in its short form; otherwise a plain scalar has the tag that its text resolves to, a quoted one a string's, and a collection its own |
| NodeTree.StylesOfNodes | encode.go:440-577 | a scalar's style is kept, a plain one with a line feed is asked for as a literal, and a plain string that reads as something else in double quotes |
| NodeTree.StringsStayStrings | encode.go:443-465 | a string node is read back as a string, however it is styled and whatever its text looks like |
| NodeTree.NodeRoundTrip | encode.go:432-577 | encoding the tree built from any node's events gives those events again, implicit flags aside, if and only if each event survives by a condition on it alone: no `!` tag, no short-form tag, and for a plain scalar no line feed and the same resolution on both sides |
| NodeTree.LostEvents | encode.go:432-577 | two concrete events that do not come back: a scalar with the tag `!`, and a plain scalar with a line feed |
| StreamLoading.Unambiguous | decode.go:148-169 | trees whose events begin alike are the same as far as events show them, so the tree is determined by the events |
| StreamLoading.SameTree | decode.go:148-169 | the node built from a tree's events does not depend on which derivation is found |
| StreamLoading.Load | yaml.go:143-164 | parser and builder together: loading the tokens of documents, one a call up to the end, succeeds if and only if every alias names an anchor before it, and gives the trees the tokens were made of |
| StreamLoading.LoadAndEncode | encode.go:432-577 | tokens to events to trees to events: each document comes back, implicit flags aside, if and only if its events survive |
| TokenQueue.Queue.InsertToken | apic.go:29-46 | for every head, capacity and position, compaction and growth included, the tokens not handed out become the old ones with one inserted |
| BlockBrackets.ScanGood | scannerc.go:995-1080 | judged from the marks of the tokens alone, over every text that is scanned: a token of the text at a column stands where every block begun at a larger column has been closed and no other was closed for it; documents and the end close all; nothing is left open |
| BlockBrackets.StepGood | scannerc.go:687-881 | each step keeps that, with the tokens that it inserts at an earlier place |
| BlockBrackets.ScanAdds | scannerc.go:995-1437 | brackets and KEYs aside, the tokens are what the text holds, in order, at its marks, and each block start is followed by its first indicator or KEY at its own mark |
| BlockLayout.LayoutIsScanned | scannerc.go:602-1532 | any text laid out in blocks is scanned to the end as exactly the tokens of its tree: sequences, also at the column of their mapping, simple and complex keys, keys alone, properties, directives and documents, any number deep up to 10,000 |
| BlockLayout.LateColonFails | scannerc.go:883-907 | a `:` on another line than its key, or more than 1024 characters behind its beginning, is refused where no key may start |
| BlockLayout.TooDeepFails | scannerc.go:995-1024 | the block at level 10,001 is refused |
| BlockLayout.NotAllowedFails | scannerc.go:1289-1437 | `-`, `?` and a `:` without a key are refused behind text on the same line |
| BlockLayout.LoneKeyFails | scannerc.go:911-953 | a required key is refused if something else comes before its `:` |
| BlockScanner.Scanner.SimpleKeyIsValid | scannerc.go:883-907 | a key on an earlier line or more than 1024 characters back is given up, and an error if it was required |
| BlockScanner.Scanner.SaveSimpleKey | scannerc.go:911-936 | notes the number of the token that comes next, so the key's token is in the queue as soon as it is appended |
| BlockScanner.Scanner.RemoveSimpleKey | scannerc.go:939-953 | afterwards no key is possible; an error if it was required |
| BlockScanner.Scanner.RollIndent | scannerc.go:995-1024 | opens one block and one level if the column is deeper, its token at the end or in front of the given one, as the pure machine of ScanGood and LayoutIsScanned does; the same of all methods below |
| BlockScanner.Scanner.UnrollIndent | scannerc.go:1029-1080 | closes one block for each level that is deeper than the column, and no other |
| BlockScanner.Scanner.FetchSimpleValue | scannerc.go:1374-1401 | KEY, and BLOCK-MAPPING-START before it, go directly in front of the token where the key began, which is still in the queue |
| BlockScanner.Scanner.FetchValue | scannerc.go:1370-1437 | with a valid key the tokens go where the key began, never in front of a token handed out; without one VALUE goes to the end |
| BlockScanner.Scanner.FetchEntry | scannerc.go:1289-1367 | `-` and `?` open a block exactly if the column is deeper, and are refused where no key may start |
| BlockScanner.Scanner.FetchOutermost | scannerc.go:1142-1197 | directives and document markers close every block first, give up the key, and append their token |
| BlockScanner.Scanner.FetchStreamEnd | scannerc.go:1111-1139 | closes every block, gives up the key and appends STREAM-END; it may be called again without opening or closing anything |
| BlockScanner.Scanner.FetchKeyText | scannerc.go:1440-1532 | anchors, aliases, tags and scalars note a key at their own token if one is allowed |
| BlockScanner.Scanner.FetchLexeme | scannerc.go:700-881 | an expired key is given up, deeper blocks are closed, then what comes is fetched: one step of the reference run |
| BlockScanner.Scanner.FetchNextToken | scannerc.go:687-881 | goes one lexeme further along the reference run, closing the deeper blocks first, and adds at least one token; when it fails the reference run over the whole text does |
| BlockScanner.Scanner.FetchMoreTokens | scannerc.go:657-684 | stops with a token at the head that no possible key may still be inserted before |
| BlockScanner.Scanner.ScanAll | scannerc.go:602-684 | hands out exactly the tokens of the reference run over the text, and fails exactly if that does, after tokens of a beginning of it; all that is handed out is placed as ScanGood says |
| EmitterSafety.IndentGrows | emitterc.go:229-248 | going deeper gives a larger indent: 2 more in a sequence item, otherwise exactly the next multiple of the best indent |
| EmitterSafety.StepIsGood | emitterc.go:251-315 | from any state of the invariant no stack is popped empty and the flow level counts the open flow collections; an event is taken if and only if the stream may go on with it |
| EmitterSafety.BatchIsGood | emitterc.go:146-160 | after any number of events not refused for their text, the emitter has failed or stands exactly where the acceptor of streams stands, stacks included |
| EmitterSafety.LookaheadIsEnough | emitterc.go:952-1001 | the choices of empty collections and simple keys made with one more event in view are those of an emitter that sees the whole list |
| EmitterShape.BatchStands | emitterc.go:855-944 | from the events alone: after any number of them the states are those of the open collections, each in flow style if and only if it asks for that, is empty, is inside a flow collection, or output is canonical; keys are simple exactly where the event is; the flow level counts the flow collections entered, and the indents are theirs |
| EmitterShape.LevelIsFlow | emitterc.go:913-944 | when all open collections have been entered, the flow level is above 0 if and only if one of them is in flow style |
| EmitterSafety.BatchExtends | emitterc.go:146-203 | events that come later do not change what was done |
| EmitterSafety.EmitterKeepsUp | emitterc.go:169-203 | whenever it waits for more, at most three events are queued; none after DOCUMENT-END; at the end of the stream all stacks are empty and the flow level is 0 |
| EmitterSafety.WaitsIff | emitterc.go:162-203 | it waits for one event behind a document's start, two behind a sequence's and three behind a mapping's, or fewer if these close it, and behind no other event |
| EmitterSafety.SimpleKeysFit | emitterc.go:970-1001 | what the state machine takes for a simple key is written on one line and short enough for the scanner to take it for one |
| EmitterSafety.SimpleKeyIff | emitterc.go:970-1001 | an event is a simple key if and only if it is an alias, a scalar without a break or an empty collection whose name, properties and value have at most 128 bytes together |
| EventEmitter.Emitter.NeedMoreEvents | emitterc.go:169-203 | the loop over the queue decides as the count of open brackets says, and changes nothing |
| EventEmitter.Emitter.CheckSimpleKey | emitterc.go:970-1001 | decides by the kind of event, the breaks in the value and the bytes of anchor, handle, suffix and value, at most 128, as SimpleKeysFit needs; changes nothing |
| EventEmitter.Emitter.IncreaseIndent | emitterc.go:229-248 | pushes the old indent and sets the next one |
| EventEmitter.Emitter.EmitNode | emitterc.go:855-944 | does the reference step for aliases, scalars and the starts of collections, which BatchStands pins from the events |
| EventEmitter.Emitter.EmitFlowSequenceItem | emitterc.go:532-612 | does the reference step |
| EventEmitter.Emitter.EmitFlowMappingKey | emitterc.go:615-688 | does the reference step, the choice of a simple key included |
| EventEmitter.Emitter.EmitBlockSequenceItem | emitterc.go:729-762 | does the reference step |
| EventEmitter.Emitter.EmitBlockMappingKey | emitterc.go:765-800 | does the reference step, the choice of a simple key included |
| EventEmitter.Emitter.EmitDocumentStart | emitterc.go:359-479 | takes a document or the end of the stream, and nothing else |
| EventEmitter.Emitter.RunStateMachine | emitterc.go:251-315 | the dispatch over all states does the reference step |
| EventEmitter.Emitter.Emit | emitterc.go:146-160 | fed one event at a time, it has always done exactly what a batch run over all events so far does, and waits only if the look-ahead asks for more |
| Decoding.MoreBytes | readerc.go:179-362 | bytes still to come do not change what was decoded |
| Decoding.OnlyEncoding | readerc.go:181-275 | what decodes to a character is its UTF-8 encoding: overlong forms, surrogates and values out of range are refused |
| DecodingErrors.Utf8Errors | readerc.go:181-275 | each error of UTF-8 is given exactly where the bytes are in its ranges (section 4 of RFC 3629): no leading byte, an incomplete sequence, the first trailing byte that is none with its offset, an overlong sequence, a surrogate or too large a value |
| Decoding.Utf8IsItself | readerc.go:181-275 | a UTF-8 input that decodes is byte for byte the encoding of what it decodes to |
| Decoding.Utf8RoundTrip | readerc.go:181-275 | every text of accepted characters is read back from its UTF-8 bytes |
| Decoding.Utf16RoundTrip | readerc.go:276-362 | the same for UTF-16 in both byte orders, surrogate pairs included (section 2.2 of RFC 2781) |
| DecodingErrors.Utf16Errors | readerc.go:276-362 | each error of UTF-16 is given exactly where the units call for it, and anything else is the encoding of the character that is read |
| Decoding.EncodingsRoundTrip | readerc.go:47-75 | a text in any encoding behind its byte order mark, or in UTF-8 without one, is read back, the mark removed |
| Reader.Reader.UpdateRawBuffer | readerc.go:78-107 | slides and refills the raw buffer: what is there stays, what follows is the next part of the input, and there is more unless the buffer is full or the input has ended |
| Reader.Reader.DetermineEncoding | readerc.go:47-75 | however short the reads, the encoding is the one that the whole input names |
| Reader.Reader.DecodeUtf8Raw | readerc.go:181-275 | one character, one error, or a request for more, as the reference decoder says |
| Reader.Reader.DecodeUtf16Raw | readerc.go:276-362 | one character, one error, or a request for more, as the reference decoder says |
| Reader.Reader.DecodeRaw | readerc.go:171-415 | decodes what is there without passing the end of the buffer; an error has the kind, offset and value of the whole input's |
| Reader.Reader.UpdateBuffer | readerc.go:113-434 | for every request of up to 8 characters: enough bytes are there or the input has ended, nothing waiting is lost, and no write passes the 1536 bytes |
| Reader.Reader.Skip | scannerc.go:513-521 | passes exactly one character, or one of the NULs behind the end |
| Reader.Reader.Drain | readerc.go:113-434 | chunk independence: for any schedule of reads the characters, or the kind, offset and value of the error, are those of the whole input |
| AliasBudget.RatioFalls | decode.go:536-550 | the allowed share of decodes inside aliases never rises with the number of decodes |
| AliasBudget.RefusedIff | decode.go:536-559 | in whole numbers: a document is refused at more than 100 decodes inside aliases among more than 1000, exactly if they are more than 99 percent up to 400,000, more than 10 percent from 4,000,000, and above the line between in between |
| AliasBudget.SpendIs | decode.go:552-559 | the counts are those of the decodes made: all of them if no beginning exceeds the budget, and otherwise those up to the first that does |
| AliasBudget.SmallDocument | decode.go:552-559 | a document with up to 1000 decodes, or 100 inside aliases, is never refused |
| NodeGraph.AcyclicIff | decode.go:619-630 | the unfolding of a node meets an alias in use if and only if some path from it leads through an alias back to the same alias |
| NodeGraph.DecodesArePaths | decode.go:552-630 | without a cycle the decodes are the paths of the node in the graph, each exactly once, and those inside aliases are the ones that go through an alias |
| NodeGraph.OutsideOnce | decode.go:552-630 | outside aliases each node of the tree is decoded at most once, and exactly once when nothing fails |
| AliasBudget.WorkIsLinear | decode.go:552-559 | in every state that is not refused, the decodes D and those outside aliases N satisfy D <= max(1000, N+100, 100N), and 9D <= 10N from 4,000,000 on |
| AliasBudget.MidRangeAllowsMore | decode.go:536-550 | a witness against the upper number in the comment inside the function: of 2,202,247 decodes 1,199,001 may be inside aliases, and no more |
| AliasBudget.CommentHoldsIff | decode.go:536-550 | over the range, the number of decodes allowed inside aliases is never below 396,000, at most 400,000 if and only if there are up to 404,494 decodes or 4,000,000, and largest at 2,202,247 decodes |
| AliasBudget.WithinAllowance | decode.go:552-559 | over the range, a document is not refused if and only if its decodes inside aliases are within that number |
| AliasBudget.Decoder.Unmarshal | decode.go:552-590 | follows the unfolding of the node exactly: it fails exactly if that meets an alias in use or the budget is exceeded on the way, and has made and counted exactly the decodes up to there, those inside aliases apart; ends on every graph |
| AliasBudget.Decoder.DecodeAlias | decode.go:619-630 | refuses exactly an alias that is in use, and otherwise follows the unfolding of its target with the alias in use |
| AliasBudget.DecodeDocument | decode.go:552-590 | ends on every graph; succeeds if and only if no alias leads back to itself and no beginning of the decodes of the unfolding exceeds the budget, with exactly so many decodes, which are linear in the nodes |
| MergeDecoder.Decoder.DecodeMapping | decode.go:856-973 | into a fresh map it gives the first-wins result; into one shared with a merge it adds exactly the fields not yet taken; the accumulator is the same object again on exit; it fails only if a merge source is no map |
| MergeDecoder.Decoder.DecodeEntries | decode.go:905-965 | the entries are added unless taken, with the accumulator hidden while values are decoded |
| MergeDecoder.Decoder.MergeInto | decode.go:1091-1128 | explicit entries win over sources and earlier sources over later ones, through nested merges; the accumulator is put back |
| MergeDecoder.Decoder.MergeAll | decode.go:1091-1128 | the sources of a list one after the other come to their first-wins merge |
| MergeDecoder.Decoder.DecodeValue | decode.go:552-590 | a value is decoded without the accumulator of the mapping around it |
| MergeLimits.SameKeysIff | decode.go:905-967 | the decoder finds the keys of the plain merge if and only if the mapping has a `<<` field itself, or no source of its merge, or of theirs, has one |
| MergeKeys.QuotedMergeKeyIsLost | decode.go:905-967 | a concrete mapping whose source has a quoted `<<` field, which is lost |
| MergeKeys.FieldsByKey | decode.go:905-1128 | by key: the value of a merged mapping is that of its explicit field if it has one, otherwise that of its merge unless the key is taken already, and there is none else |
| MergeKeys.ItemsInOrder | decode.go:815-854 | the items of a sequence have their values in order |
| MergeKeys.SourcesBring | decode.go:1091-1128 | of a list of sources a key has its value in the first that has it |
| MergeKeys.HidesOnlyMergeKey | decode.go:905-967 | no other field is ever lost or added, in nested merges too |
| MergeLimits.DecodesPlainMergeIff | decode.go:905-967 | the decoder gives exactly the plain first-wins merge, values included, if and only if no merge whose result can be seen would bring in a quoted `<<` field; such fields outside sources, or where another field wins, do not matter |
| MergeLimits.SameValueIff | decode.go:905-967 | the same for any value, sequences and nested mappings included |
| KeyOrder.LessIsTokenOrder | sorter.go:54-98 | the decision at the first difference is the lexicographic order of the strings cut into letters, symbols and numbers by value and length, letters and symbols exchanged behind a number |
| KeyOrder.NumbersAgree | sorter.go:73-96 | comparing what is left of two numbers behind common digits, with the look-back for leading zeros, compares the whole numbers |
| KeyOrder.TokensInjective | sorter.go:54-98 | strings with equal tokens are equal |
| KeyOrder.LessIsStrictTotal | sorter.go:27-99 | on strings the order is irreflexive, total, asymmetric and transitive |
| KeyOrder.NumbersByValue | sorter.go:54-98 | numbers behind a common beginning are in the order of what they are worth, leading zeros aside, whatever follows them: `file2` before `file10` |
| KeyOrder.Worth | sorter.go:84-89 | each of the ten digits has its worth, and every further digit makes what is before it worth ten times as much |
| KeyOrder.LettersByCode | sorter.go:61-65 | letters are in the order of the alphabet, all capitals first |
| KeyOrder.LetterOrNot | sorter.go:60-72 | a letter comes behind anything else, but before it right behind a number |
| KeyOrder.SymbolsFirst | sorter.go:73-98 | other characters are in the order of their codes, and before digits |
| KeyOrder.BeginningFirst | sorter.go:98-98 | a string comes before every longer one that begins with it |
| KeyOrder.ByKind | sorter.go:36-53 | numbers come before strings, and kinds that cannot be compared are in the order of the kinds |
| KeyOrder.KeysAreOrdered | sorter.go:27-134 | on keys of all kinds, with numbers compared as float64, then by kind, then as they are, it is a strict weak order, as sorting needs, however numbers are rounded; only equal keys, or keys of one other kind, are unordered |
| KeyOrder.OneKindByValue | sorter.go:120-134 | numbers of one kind are in the order of their exact values, also where float64 cannot tell them apart |
| KeyOrder.KindsByValueIff | sorter.go:40-49 | numbers of different kinds are in the order of their exact values if and only if rounding keeps them apart or the kinds are in that order |
| KeyOrder.LargerComesFirst | sorter.go:40-49 | a concrete pair: the int 9007199254740993 comes before the float 9007199254740992, since they are one float64 |
| KeyOrder.StringLess | sorter.go:54-98 | the loops with look-back and look-ahead compute that order |
| KeyOrder.LookBack | sorter.go:75-83 | looks back over common digits for one that is not zero, if a zero comes next |
| KeyOrder.ReadNumber | sorter.go:84-89 | reads the digits' value and where they end |
| OriginRecord.BuildOriginSeq | origin.go:62-126 | the loops, counters and appends write the layout of the mapping's record; an alias key is recorded by its anchor's name |
| OriginRecord.FieldsAreKeys | origin.go:74-100 | the fields of the record are the keys that are not synthetic, in order, each with its text, line and column |
| OriginRecord.GroupsAreSequences | origin.go:74-126 | its groups are those of the fields whose values are sequences with scalars, in order, with the field's text and these scalars |
| OriginRecord.ItemsAreScalars | origin.go:74-126 | the items of a group are the scalars of its sequence, in order, each with its text, line and column |
| OriginRecord.RecordEnds | origin.go:62-126 | the record begins with the file and the key's text and place, and ends with the end of the mapping, or of its key's line if that is not known |
| OriginRecord.RecordIsRead | origin.go:62-126 | a reader of the layout gets every field, item and end position back, whatever follows the record |
| OriginRecord.LayoutInjective | origin.go:62-126 | equal layouts come from equal records |
| OriginRecord.NodesInjective | origin.go:134-140 | with strings and integers as scalar nodes, integers in decimal, equal node lists still come from equal records |

## Left out

- Comments everywhere: no comment tokens, no TAIL-COMMENT events, no foot indent other than -1 where a round trip is claimed, and the two trailing-comma states of the emitter, which only comments reach.
- FlowRoundTrip.DoubleQuotedRoundTrip: values that are not valid UTF-8 are not modelled, because values are sequences of characters.
- StyleSelection.ScalarRoundTrip: leaves out the empty plain scalar, which writes no characters, and where the token of a folded scalar ends.
- Simple keys inside flow collections, and all flow levels above 0, in the block scanner: there a new key slot shares a token number with the outer one, so the invariant does not hold.
- BlockScanner.Scanner.ScanAll: scans lexemes, that is, what starts at each position; their characters are left to the scanners of scalars, anchors and tags, and the values of directives are not scanned. The queue is the logical one; TokenQueue shows that the storage gives it.
- Positions and error messages: marks are token numbers in the parser and a line, column and index in the block scanner; end positions and message texts are not modelled.
- ScalarEmitter.Emitter.AnalyzeScalar: runs over the value twice, once for characters and once for indicators, where the source has one loop; the text goes to one sequence, without the flushing of the output buffer.
- ScalarScanner.Scanner.ScanFlowScalar: reads from one buffer that holds all the input, without line numbers; Reader shows that the sliding buffer delivers it.
- ParserCompleteness.StreamIsRead: an empty node in a flow sequence is given an empty scalar token, since nothing else would show it; pairs in flow sequences are in FlowPairs; the verbatim spelling of a tag is the token with an empty handle.
- NodeTree.NodeRoundTrip: the implicit flags are left aside, resolution of plain scalars is a parameter that gives short tags, and values that are not UTF-8 (encoded as binary) are left out.
- EmitterSafety.StepIsGood: canonical output, the handle and suffix that each event's tag is split into (by the tag directives in force), and whether an event's text is refused are parameters; version and tag directives and the written text are not part of the machine.
- AliasBudget.DecodeDocument: every key and value decodes (a null value too), merges and origin records are off, and the ratio is a real number instead of a float64.
- MergeDecoder.Decoder.DecodeMapping: keys are scalars, no key comes twice, aliases stand for the nodes they name, the target is a map and not a struct, and origin records, which pass by the accumulator, are off.
- KeyOrder.LessIsStrictTotal: letters and digits are those of ASCII, and integers are unbounded, where the source's 64 bits agree for runs of up to 18 digits.
- KeyOrder.KeysAreOrdered: NaN is left out, and rounding to float64 is any function that keeps the order.
- TokenQueue.Queue.InsertToken: how much larger the storage becomes when it grows is not modelled beyond being large enough.
- Origin records: that `addOrigin` appends the record under its own key is not part of the model, only what the record says.
- Reflection, struct decoding, resolution of numbers, times and booleans, regular expressions, base64, readers and writers of the operating system, and the commented-out C code.
