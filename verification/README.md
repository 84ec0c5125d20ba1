# Verified models of the PDF reader, the release gate and their neighbours

The Dafny files here model five computational parts of the repository and prove what they are for:

- the PDF text reader (`pdf-text.ts`, with its Python twin in `image_gate.py` compared in two places):
  tokeniser and value parser, reference resolution, page tree, PNG predictors, content streams and line joining
  (`PdfLexer`, `PdfLiteral`, `PdfGrammar`, `PdfMeaning`, `PdfReading`, `PdfRoundTrip`, `PdfStream`, `PdfDoc`,
  `PdfContent`, `PdfContentLaws`, `PdfTextObjects`, `PdfTextLaws`, `PdfScanner`, `PageTree`, `PngPredictor`);
- the release gate (`image_gate.py`): merge of scanner records, decision register, watch list and verdict, the slim copy
  of an OCI layout, and version keys (`GateFindings`, `ReleaseGate`, `OciSlim`, `SemVer`);
- statistics and CSV (`compare.js`, `dq6-load.js`): `MannWhitney`, `Csv`, `Jain`;
- bit-level codecs (`lib.js`, `totp.ts`): `Crc32`, `Base32`;
- two stateful guards (`instrument.ts`, `live-pacing.ts`): `Scrubber`, `AuthPacer`.

Where the source is a loop or an object that changes, the model is a method or a class, proved against a function; the
laws are lemmas about those functions. `dafny verify dfyconfig.toml` checks the whole project.

Where the code does something other than its own comments or the standard it follows promise, the model follows the
code and a lemma says when the promise holds:

- the page walk can emit one page twice, through an object that is itself a reference (`PageTree.AliasedPageTwice`,
  `PageTree.NoPageTwice`), and a null /Resources entry hides inherited resources (`PageTree.NullHidesResources`,
  `PageTree.ResourcesAreInherited`);
- a carriage return in a literal string is kept as it is (`PdfMeaning.BareCrIsKept`, `PdfMeaning.ValueMeansWhatIsRead`),
  and so is a dictionary entry that is null (`PdfMeaning.NullEntryIsKept`, `PdfMeaning.NullEntriesAreKept`);
- data of an inline image that holds an `EI` between blanks is left in its middle (`PdfStream.DataEndsEarly`,
  `PdfStream.DataIsSkipped`);
- the two PNG decoders differ on parameters that are 0 (`PngPredictor.ZeroColumnsDisagree`, `PngPredictor.ProgramsAgree`);
- `7.0 0 R` is a reference in the TypeScript reader (`PdfRoundTrip.PointZeroIsFolded`, `PdfRoundTrip.WholeNumeralsFold`),
  and a literal string still open at the end, after an odd number of backslashes, takes the position one past it
  (`PdfLiteral.PastTheEnd`, `PdfLiteral.LiteralPassesTheEnd`, `PdfLiteral.ValuePassesTheEnd`);
- a capped string can be one character longer than the limit (`Scrubber.CappedIsLonger`, `Scrubber.CapTwice`);
- `scrubData` says that every string goes through `redactString`, and the name of an Error does not
  (`Scrubber.NameIsNotRedacted`);
- the placeholder of a sensitive key can be overwritten by a later key that redaction makes the same
  (`Scrubber.PlaceholderStays`, `Scrubber.PlaceholderLost`);
- base32 text with white space after its padding is refused (`Base32.BlankAfterAByte`, `Base32.BlankAfterPadding`);
- `paceAuth` with more than 4 upcoming calls waits for ever (`AuthPacer.FiveWaitForEver`, `AuthPacer.WaitCanEnd`);
- a finding on hold can be cleared by an added record (`ReleaseGate.NewAliasClearsAHold`, `ReleaseGate.HoldsClearExactly`).

Numbers that are floating point in the source are reals; a rounded result is modelled before it is rounded.

## Model

| member | source | states |
|---|---|---|
| `PdfLexer.RawAt` | packages/rab-e2e-testing/system/lib/pdf-text.ts:107-165 | on any input a token moves the position forward, the end is reported exactly when only white space and comments are left, and the position stays within one of the end, past it only if the input ends in a backslash; exactly when it does is the subject of `PdfLiteral.ValuePassesTheEnd` |
| `PdfLexer.ValueAt` | packages/rab-e2e-testing/system/lib/pdf-text.ts:168-179 | the same progress for a value, although reading `n g R` may parse a whole nested array and go back: so the mutual recursion ends on every input |
| `PdfLexer.ItemsAt` | packages/rab-e2e-testing/system/lib/pdf-text.ts:135-143 | the array loop never moves back, and passes the end only after a final backslash |
| `PdfLexer.EntriesAt` | packages/rab-e2e-testing/system/lib/pdf-text.ts:114-125 | the dictionary loop never moves back, and passes the end only after a final backslash |
| `PdfLexer.LiteralAt` | packages/rab-e2e-testing/system/lib/pdf-text.ts:79-104 | a literal string never moves back, and passes the end only after a final backslash |
| `PdfLiteral.LiteralEnds` | packages/rab-e2e-testing/system/lib/pdf-text.ts:79-104 | the scan of a literal string ends just after the parenthesis that closes it, counting parentheses that are not escaped; if none does, at the end of the input or, when that comes after an unescaped backslash, one past it |
| `PdfLiteral.LiteralPassesTheEnd` | packages/rab-e2e-testing/system/lib/pdf-text.ts:84-96 | the scan passes the end exactly when the string is still open there and the backslashes that end the input are odd in number |
| `PdfLiteral.ValuePassesTheEnd` | packages/rab-e2e-testing/system/lib/pdf-text.ts:107-179 | a token or a value, however deep, that takes the position to the end takes it past the end exactly when the text, split into tokens without regard to nesting, ends in a literal string whose scan passes the end |
| `PdfLiteral.PastTheEnd` | packages/rab-e2e-testing/system/lib/pdf-text.ts:84-96 | the failing input: an opening parenthesis and a backslash end one past the input, while a name with a backslash does not |
| `PdfLexer.SkipAt` | packages/rab-e2e-testing/system/lib/pdf-text.ts:68-77 | the place found is the end or holds neither white space nor the start of a comment |
| `PdfLexer.Lexer.SkipSpace` | packages/rab-e2e-testing/system/lib/pdf-text.ts:68-77 | the loop leaves `pos` where `SkipAt` says |
| `PdfLexer.Lexer.OctalDigits` | packages/rab-e2e-testing/system/lib/pdf-text.ts:90-92 | the loop over at most three octal digits |
| `PdfLexer.Lexer.Escape` | packages/rab-e2e-testing/system/lib/pdf-text.ts:87-97 | one escape: bytes and position as in `EscapeAt`, and a byte 0 for a backslash at the end |
| `PdfLexer.Lexer.Literal` | packages/rab-e2e-testing/system/lib/pdf-text.ts:79-104 | the literal loop: bytes and position as in `LiteralAt` |
| `PdfLexer.Lexer.Hex` | packages/rab-e2e-testing/system/lib/pdf-text.ts:126-129 | a hexadecimal string as in `HexAt` |
| `PdfLexer.Lexer.Word` | packages/rab-e2e-testing/system/lib/pdf-text.ts:148-164 | a name, number, keyword or operator as in `WordAt` |
| `PdfLexer.Lexer.Raw` | packages/rab-e2e-testing/system/lib/pdf-text.ts:107-165 | `raw()` moves `pos` through `RawAt` |
| `PdfLexer.Lexer.Value` | packages/rab-e2e-testing/system/lib/pdf-text.ts:168-179 | `value()` with its look-ahead and backtracking moves `pos` through `ValueAt` |
| `PdfLexer.Lexer.Items` | packages/rab-e2e-testing/system/lib/pdf-text.ts:135-143 | the loop that fills an array, as in `ItemsAt` |
| `PdfLexer.Lexer.Entries` | packages/rab-e2e-testing/system/lib/pdf-text.ts:114-125 | the loop that fills a dictionary, as in `EntriesAt` |
| `PdfLexer.Lexer.SkipInlineImage` | packages/rab-e2e-testing/system/lib/pdf-text.ts:182-187 | the search for the `EI` that ends inline data leaves `pos` where `ImageEnd` says |
| `PdfLexer.ImageEnd` | packages/rab-e2e-testing/system/lib/pdf-text.ts:183-186 | the place after the first match of the pattern from the position on, or the end of the text if there is none |
| `PdfReading.ReadLiteral` | packages/rab-e2e-testing/system/lib/pdf-text.ts:79-104 | every written literal string (balanced parentheses, escapes, octal, line continuations) is read up to its closing parenthesis, each piece as the bytes the source takes it for |
| `PdfReading.ReadHex` | packages/rab-e2e-testing/system/lib/pdf-text.ts:126-129 | every written hexadecimal string, with junk between the digits and an odd number of them, is read to its bytes |
| `PdfReading.ReadName` | packages/rab-e2e-testing/system/lib/pdf-text.ts:148-154 | a name with `#xx` in it is read to the name it stands for |
| `PdfReading.NumberRead` | packages/rab-e2e-testing/system/lib/pdf-text.ts:155-160 | a numeral of any admitted shape is read to its number |
| `PdfReading.ReadRef` | packages/rab-e2e-testing/system/lib/pdf-text.ts:168-179 | a number, a generation and R, with white space between, fold into a reference |
| `PdfReading.ItemsNoFold` | packages/rab-e2e-testing/system/lib/pdf-text.ts:168-179 | what follows an item of a well-separated array is never mistaken for a generation number and R |
| `PdfReading.ReadValue` | packages/rab-e2e-testing/system/lib/pdf-text.ts:107-179 | any written value is read to its end in any context that cannot continue it |
| `PdfMeaning.LiteralMeansWhatIsRead` | packages/rab-e2e-testing/system/lib/pdf-text.ts:79-104 | a literal string is read as the bytes section 7.3.4.2 of ISO 32000-1 gives it exactly when it holds no carriage return without a backslash before it |
| `PdfMeaning.BareCrIsKept` | packages/rab-e2e-testing/system/lib/pdf-text.ts:85-101 | the failing input: a carriage return in parentheses is read as byte 13 and denotes byte 10 |
| `PdfMeaning.ValueMeansWhatIsRead` | packages/rab-e2e-testing/system/lib/pdf-text.ts:107-179 | what is read of any written value stands for the object it denotes (bytes of strings, dictionaries without order and without null entries) exactly when no literal string in it that counts holds such a carriage return |
| `PdfMeaning.NullEntriesAreKept` | packages/rab-e2e-testing/system/lib/pdf-text.ts:114-125 | the value read keeps an entry that is null, which by section 7.3.7 of ISO 32000-1 is no entry, exactly where the last pair of its key is null, at any depth |
| `PdfMeaning.NullEntryIsKept` | packages/rab-e2e-testing/system/lib/pdf-text.ts:121 | an input: the entry of `<</A null>>` is kept, and the dictionary it denotes has none |
| `PdfRoundTrip.ParseValue` | packages/rab-e2e-testing/system/lib/pdf-text.ts:190-193 | `parseValue()` is the first value of the text, none for a stray end mark |
| `PdfRoundTrip.WrittenFormReadsBack` | packages/rab-e2e-testing/system/lib/pdf-text.ts:107-179 | every written form of a value by section 7.3 of ISO 32000-1 (any spacing, comments, escapes, nesting) is read to its end and no further; what is read stands for the object denoted, exactly unless a literal string in it that counts holds a carriage return without a backslash, and keeps null entries exactly where they are written |
| `PdfRoundTrip.PrintThenRead` | packages/rab-e2e-testing/system/lib/pdf-text.ts:107-179 | printing any value without operators gives a text that denotes its object by section 7.3, and reading that text gives the value back, null entries and all, and stops at the end |
| `PdfRoundTrip.WholeNumeralsFold` | packages/rab-e2e-testing/system/lib/pdf-text.ts:168-179 | two numerals and R are a reference exactly when both numbers are whole, so `7.0 0 R` is one too; otherwise only the first number is read |
| `PdfRoundTrip.PointZeroIsFolded` | packages/rab-e2e-testing/system/lib/pdf-text.ts:168-175 | an input: `7.0 0 R` is read as a reference to object 7 |
| `PdfStream.WrittenStreamTokens` | packages/rab-e2e-testing/system/lib/pdf-text.ts:586-595 | a content stream written as operands, operators and inline images whose data holds no end of its own is interpreted as exactly the operands and operators, the data left out; they stand for the objects written, exactly unless one that counts holds a bare carriage return |
| `PdfStream.DataIsSkipped` | packages/rab-e2e-testing/system/lib/pdf-text.ts:182-187 | the data of an inline image is skipped to the `EI` written after it exactly when the data holds no match of the pattern itself and what follows ends the `EI` |
| `PdfStream.DataEndsEarly` | packages/rab-e2e-testing/system/lib/pdf-text.ts:182-187 | an input: data with an `EI` between blanks is left in its middle |
| `PdfStream.NoMoreTokensThanText` | packages/rab-e2e-testing/system/lib/pdf-text.ts:586-595 | of any text, well formed or not, no more values are read than it has characters |
| `PdfDoc.Resolve` | packages/rab-e2e-testing/system/lib/pdf-text.ts:327-331 | the loop of `resolve()` computes the model function |
| `PdfDoc.ResolveFollowsTheChain` | packages/rab-e2e-testing/system/lib/pdf-text.ts:327-331 | `resolve()` gives the end of a chain of at most 32 references, and undefined for a longer chain or a cycle |
| `PdfScanner.StreamState.ShowCodes` | packages/rab-e2e-testing/system/lib/pdf-text.ts:559-569 | the code loop moves the text matrix, collects the text and tracks widths as the show function says |
| `PdfScanner.StreamState.ShowText` | packages/rab-e2e-testing/system/lib/pdf-text.ts:547-580 | `show()` changes the text matrix and adds a run as `Show` says, and nothing else |
| `PdfScanner.StreamState.ToNextLine` | packages/rab-e2e-testing/system/lib/pdf-text.ts:581-584 | `nextLine()` moves both text matrices and nothing else |
| `PdfScanner.StreamState.Restore` | packages/rab-e2e-testing/system/lib/pdf-text.ts:601-606 | Q takes back the whole state saved last, or without one only the matrix of the stream |
| `PdfScanner.StreamState.SetGraphics` | packages/rab-e2e-testing/system/lib/pdf-text.ts:598-635 | q, Q, cm and the text-state operators take the whole state where the model takes it |
| `PdfScanner.StreamState.SetPosition` | packages/rab-e2e-testing/system/lib/pdf-text.ts:636-650 | the text-positioning operators take the whole state where the model takes it |
| `PdfScanner.StreamState.TextOperator` | packages/rab-e2e-testing/system/lib/pdf-text.ts:610-668 | BT, ET and the showing operators take state, runs and the text-object counter where the model takes them |
| `PdfScanner.DrawXObject` | packages/rab-e2e-testing/system/lib/pdf-text.ts:669-684 | Do, with its image list and its guarded recursion into forms, changes the page as `Draw` says |
| `PdfScanner.Interpret` | packages/rab-e2e-testing/system/lib/pdf-text.ts:588-691 | one operand or operator is one `Step` of the model |
| `PdfScanner.ScanContent` | packages/rab-e2e-testing/system/lib/pdf-text.ts:515-693 | a whole content stream, with inline data skipped in the lexer, leaves the page as `Scan` says; the recursion through forms ends on cyclic form graphs |
| `PdfScanner.JoinLines` | packages/rab-e2e-testing/system/lib/pdf-text.ts:702-723 | the line loop computes `LinesOf` |
| `PdfScanner.PageText` | packages/rab-e2e-testing/system/lib/pdf-text.ts:17-28 | the lines of a page are those of the runs of its scan |
| `PdfContentLaws.RunAppend` | packages/rab-e2e-testing/system/lib/pdf-text.ts:588-691 | running two sequences of tokens one after the other is running their concatenation |
| `PdfContentLaws.SavedStatesSurvive` | packages/rab-e2e-testing/system/lib/pdf-text.ts:598-606 | whatever runs above the saved states of the enclosing q operators leaves those states as they were, and the stack height follows the nesting |
| `PdfContentLaws.BalancedRestores` | packages/rab-e2e-testing/system/lib/pdf-text.ts:533-545 | a balanced sequence between q and Q restores CTM, font, size, spacing, scaling and leading (section 8.4.2 of ISO 32000-1) and the stack; the text matrices and the text object stay as the inner sequence left them |
| `PdfContentLaws.FormsAreLeft` | packages/rab-e2e-testing/system/lib/pdf-text.ts:675-682 | any content leaves the set of running forms as it found it |
| `PdfContentLaws.RunIndices` | packages/rab-e2e-testing/system/lib/pdf-text.ts:610-614 | runs a stream adds carry its current text object or one begun since; without BT its current one does not change |
| `PdfContentLaws.BeginTextSeparates` | packages/rab-e2e-testing/system/lib/pdf-text.ts:610-614 | runs before a BT and runs from it on, forms included, never share a text-object index |
| `PdfContentLaws.FormsAreSeparate` | packages/rab-e2e-testing/system/lib/pdf-text.ts:669-684 | runs shown by a form share an index with no earlier run and with none the enclosing stream shows before its next BT |
| `PdfContentLaws.OneTextObject` | packages/rab-e2e-testing/system/lib/pdf-text.ts:547-580 | without BT and Do everything shown is in one text object |
| `PdfTextObjects.TagsMatch` | packages/rab-e2e-testing/system/lib/pdf-text.ts:597-692 | in any stream, with the BT of each added run followed through nested forms, added runs carry one index exactly when they are shown under one BT |
| `PdfTextObjects.SameIndexSameBt` | packages/rab-e2e-testing/system/lib/pdf-text.ts:597-692 | over a whole page, nested forms included, two runs carry the same text-object index exactly when they are shown under the same BT |
| `PdfTextLaws.ShowMoves` | packages/rab-e2e-testing/system/lib/pdf-text.ts:553-569 | showing moves the text matrix by the sum of all advances, text or not |
| `PdfTextLaws.RunEndsOnItsBaseline` | packages/rab-e2e-testing/system/lib/pdf-text.ts:571-579 | a run starts where the text matrix stood; a measurable one ends at its start moved along its baseline by the total advance |
| `PdfTextLaws.BytesSplit` | packages/rab-e2e-testing/system/lib/pdf-text.ts:559-569 | a string cut at a code boundary shows as its two pieces in turn |
| `PdfTextLaws.ShowSplits` | packages/rab-e2e-testing/system/lib/pdf-text.ts:547-580 | one show or two shows of its parts, each with measurable text: the same state after, one run against two that meet exactly |
| `PdfTextLaws.LinesKeepText` | packages/rab-e2e-testing/system/lib/pdf-text.ts:702-723 | for any runs the lines concatenate to exactly the run texts, and none is empty |
| `PdfTextLaws.LinesBreakWhereRunsDoNotContinue` | packages/rab-e2e-testing/system/lib/pdf-text.ts:702-723 | the lines of two groups of runs are those of the first and those of the second, with the last of the first and the first of the second made one exactly when the second group continues the first |
| `PdfTextLaws.SplitRunKeepsLines` | packages/rab-e2e-testing/system/lib/pdf-text.ts:702-723 | replacing a run by two that meet exactly changes no line, whatever stands around |
| `PdfTextLaws.RunsOnlyGrow` | packages/rab-e2e-testing/system/lib/pdf-text.ts:572-579 | what a stream adds does not depend on the runs already there |
| `PdfTextLaws.SplitStringKeepsThePage` | packages/rab-e2e-testing/system/lib/pdf-text.ts:547-580 | `(ab) Tj` and `(a) Tj (b) Tj` in any stream: the same state afterwards and the same lines of the whole page |
| `PageTree.PageWalk.Visit` | packages/rab-e2e-testing/system/lib/pdf-text.ts:735-744 | the recursive walk, with its growing seen set and list, is the model function |
| `PageTree.Pages` | packages/rab-e2e-testing/system/lib/pdf-text.ts:731-748 | `orderedPages()` after the catalog is found computes `OrderedPages` |
| `PageTree.WalkVisits` | packages/rab-docker/scripts/image-security/image_gate.py:1531-1547 | from any state the walk only adds: new references to the seen set, each page under one of them |
| `PageTree.PagesAreReached` | packages/rab-e2e-testing/system/lib/pdf-text.ts:731-748 | on any object graph, cyclic or shared, no reference gives two pages and every page can be reached through kids; where no way down is longer than the depth limit, the pages are exactly the page references that can be reached |
| `PageTree.NoPageTwice` | packages/rab-e2e-testing/system/lib/pdf-text.ts:731-748 | no page object is emitted twice if no two page references that can be reached end in the same object; where nothing is too deep, exactly if that is so |
| `PageTree.AliasedPageTwice` | packages/rab-e2e-testing/system/lib/pdf-text.ts:736-743 | the failing document: its kids name a page and an alias of it, and the page is emitted twice |
| `PageTree.TreePagesApart` | packages/rab-e2e-testing/system/lib/pdf-text.ts:731-748 | on a page tree of any height no page object is emitted twice exactly if no two leaves within the depth limit end in the same object |
| `PageTree.PagesAreTheLeaves` | packages/rab-e2e-testing/system/lib/pdf-text.ts:731-748 | on a page tree of any height the pages are exactly the leaves at most 64 levels below the root, left to right, each with what the walk hands down as resources; they are all leaves exactly if none is deeper |
| `PageTree.HandedIsNearest` | packages/rab-e2e-testing/system/lib/pdf-text.ts:741 | what the walk hands down a path is what sections 7.3 and 7.7.3 of ISO 32000-1 have the page inherit, exactly unless the last /Resources entry on the path is null or refers to nothing and a node above has a dictionary |
| `PageTree.ResourcesAreInherited` | packages/rab-e2e-testing/system/lib/pdf-text.ts:731-748 | on a page tree every page has its own or its nearest ancestor's resources by section 7.7.3, exactly unless a blank entry hides them from one |
| `PageTree.NullHidesResources` | packages/rab-e2e-testing/system/lib/pdf-text.ts:741 | the failing document: a page with null resources gets none, and ought to inherit its parent's |
| `PngPredictor.PaethIsTheNearest` | packages/rab-e2e-testing/system/lib/pdf-text.ts:219-225 | the predictor picks the neighbour nearest to a + b - c, ties in the order left, above, upper left (section 9.4 of the PNG specification) |
| `PngPredictor.DecodeEncoded` | packages/rab-e2e-testing/system/lib/pdf-text.ts:206-228 | any rows, each with any of the filters, encoded and then decoded give their bytes back |
| `PngPredictor.EncodeDecoded` | packages/rab-e2e-testing/system/lib/pdf-text.ts:206-228 | encoding what was decoded with the same filters gives the data back up to its last complete row |
| `PngPredictor.DecodeLength` | packages/rab-e2e-testing/system/lib/pdf-text.ts:203-205 | the output has one row for each complete row of the data |
| `PngPredictor.RestoreInPlace` | packages/rab-e2e-testing/system/lib/pdf-text.ts:206-228 | one row restored in place, from the data and the row before it in the same buffer, leaving the rows before it alone |
| `PngPredictor.UnpredictInPlace` | packages/rab-e2e-testing/system/lib/pdf-text.ts:196-230 | the in-place loop over all rows computes the decoding |
| `PngPredictor.BuildRow` | packages/rab-docker/scripts/image-security/image_gate.py:1143-1165 | the Python row loop builds the restored row beside the previous one |
| `PngPredictor.UnpredictByRows` | packages/rab-docker/scripts/image-security/image_gate.py:1133-1166 | the row-by-row form computes the same decoding |
| `PngPredictor.PngUnpredictTs` | packages/rab-e2e-testing/system/lib/pdf-text.ts:196-230 | the TypeScript function with its parameter defaults |
| `PngPredictor.PngUnpredictPy` | packages/rab-docker/scripts/image-security/image_gate.py:1133-1166 | the Python function with its parameter defaults |
| `PngPredictor.ProgramsAgree` | packages/rab-docker/scripts/image-security/image_gate.py:1133-1166 | the two programs give the same bytes exactly when no parameter is 0, or nothing is predicted, or no row is complete |
| `PngPredictor.ZeroColumnsDisagree` | packages/rab-docker/scripts/image-security/image_gate.py:1139 | an input: no columns and one complete row by the Python program's reading |
| `MannWhitney.GroupRank` | packages/rab-e2e-testing/cost/lib/compare.js:114 | a maximal group of ties from i to j has the rank that counting gives each of its members |
| `MannWhitney.Ranks` | packages/rab-e2e-testing/cost/lib/compare.js:113-114 | the two nested loops give every position its midrank |
| `MannWhitney.RankUCountsPairs` | packages/rab-e2e-testing/cost/lib/compare.js:116-117 | U from midranks equals the pairs with x above y plus half the tied pairs, for all samples, tie patterns and orders a sort may leave |
| `MannWhitney.RanksSum` | packages/rab-e2e-testing/cost/lib/compare.js:113-114 | the ranks of the N pooled values sum to N(N+1)/2 |
| `MannWhitney.PairsOpposite` | packages/rab-e2e-testing/cost/lib/compare.js:116-117 | U1 + U2 = n1 n2 |
| `MannWhitney.MannWhitneyP` | packages/rab-e2e-testing/cost/lib/compare.js:111-120 | the whole function: the p-value of the pair-counting U |
| `MannWhitney.SwapKeepsP` | packages/rab-e2e-testing/cost/lib/compare.js:116-119 | swapping the samples keeps the p-value |
| `Csv.ReadRows` | packages/rab-e2e-testing/cost/lib/compare.js:204-210 | the character loop, with its skip over a doubled quote, computes the rows |
| `Csv.ParseCsv` | packages/rab-e2e-testing/cost/lib/compare.js:203-213 | rows of the header's width become records, others are dropped, an empty text gives none |
| `Csv.RowsReadBack` | packages/rab-e2e-testing/cost/lib/compare.js:204-210 | a table written by section 2 of RFC 4180, with any choice of quoting and line ends, reads back cell by cell |
| `Csv.OpenLastLine` | packages/rab-e2e-testing/cost/lib/compare.js:210 | a last line without its end reads back too, exactly unless it is one empty cell |
| `Csv.LastColumnWins` | packages/rab-e2e-testing/cost/lib/compare.js:212 | among columns of one name the last one gives the value |
| `Csv.RoundTrip` | packages/rab-e2e-testing/cost/lib/compare.js:203-213 | records under distinct names, written and parsed, come back the same and in order |
| `Csv.NormalFormReadsTheSame` | packages/rab-e2e-testing/cost/lib/compare.js:204-210 | any text at all reads as the table of its rows with every field quoted |
| `Jain.Group` | packages/rab-e2e-testing/cost/lib/dq6-load.js:214-215 | the Map loop groups the latencies by organisation in order of first appearance |
| `Jain.Fairness` | packages/rab-e2e-testing/cost/lib/dq6-load.js:213-227 | the index of the means, null without means and not a number when all are zero |
| `Jain.Lagrange` | packages/rab-e2e-testing/cost/lib/dq6-load.js:219-223 | n times the sum of squares exceeds the squared sum by the squared distances of all pairs |
| `Jain.IndexBounds` | packages/rab-e2e-testing/cost/lib/dq6-load.js:223 | before rounding the index is at most 1, and 1 exactly for equal means; of non-negative means at least 1/n, and 1/n exactly when at most one is not zero |
| `Jain.FairnessBounds` | packages/rab-e2e-testing/cost/lib/dq6-load.js:213-227 | from rows with non-negative latencies: null exactly without latencies, a number exactly when some latency is not zero, and then between 1/n and 1 |
| `Jain.OrderOfRowsIsFree` | packages/rab-e2e-testing/cost/lib/dq6-load.js:213-227 | reordering the rows does not change the index |
| `Crc32.Word` | packages/rab-e2e-testing/cost/lib/lib.js:145 | the inner loop of one table entry |
| `Crc32.BuildTable` | packages/rab-e2e-testing/cost/lib/lib.js:145 | the table holds eight single-bit steps of each byte |
| `Crc32.ComputeCrc` | packages/rab-e2e-testing/cost/lib/lib.js:146 | the byte loop over the table |
| `Crc32.PngCrc` | packages/rab-e2e-testing/cost/lib/lib.js:145-146 | table and byte loop together |
| `Crc32.EightStepsAreOneLookup` | packages/rab-e2e-testing/cost/lib/lib.js:145-146 | eight single-bit steps of c equal `table[c & 255] xor (c >>> 8)` |
| `Crc32.RegisterFeedsBits` | packages/rab-e2e-testing/cost/lib/lib.js:146 | on every byte sequence the table-driven register is the bit-serial one |
| `Crc32.CrcIsARemainder` | packages/rab-e2e-testing/cost/lib/lib.js:145-146 | the result is the complement of the remainder, by long division, of the message by the generator polynomial (section 5.5 and Annex D of the PNG specification) |
| `Crc32.OneByteIsDetected` | packages/rab-e2e-testing/cost/lib/lib.js:146 | changing one byte of a message always changes its CRC |
| `Base32.IndexOfFinds` | packages/rab-e2e-testing/system/lib/totp.ts:5 | the place of a character in the alphabet, or that it has none |
| `Base32.PushBits` | packages/rab-e2e-testing/system/lib/totp.ts:13 | a pushed symbol goes below the pending bits; what the 32-bit shift drops is above them |
| `Base32.EmitBits` | packages/rab-e2e-testing/system/lib/totp.ts:15-18 | an emitted byte is the eight highest pending bits, and the rest stay pending |
| `Base32.DecodeSymbols` | packages/rab-e2e-testing/system/lib/totp.ts:7-20 | after n symbols the output is the first floor(5n/8) bytes of the bit stream, whatever the never-masked 32-bit accumulator holds above |
| `Base32.Base32Decode` | packages/rab-e2e-testing/system/lib/totp.ts:4-21 | the same for texts, and an error for a character outside the alphabet |
| `Base32.RoundTrip` | packages/rab-e2e-testing/system/lib/totp.ts:4-21 | decoding the section 6 of RFC 4648 encoding of any bytes, in either case, with white space inside, padded or not, returns them |
| `Base32.BlankAfterPadding` | packages/rab-e2e-testing/system/lib/totp.ts:6 | with white space at the end a text decodes exactly when it has no padding: the padding is dropped first |
| `Base32.BlankAfterAByte` | packages/rab-e2e-testing/system/lib/totp.ts:6 | an input: `MY======` decodes, and with a blank after it it does not |
| `GateFindings.CollectFindings` | packages/rab-docker/scripts/image-security/image_gate.py:829-860 | the loops over both scanners' records compute the merge |
| `GateFindings.CollectedFindings` | packages/rab-docker/scripts/image-security/image_gate.py:833-845 | one finding for each key of the records, with the union of their aliases, versions and scanners, their highest severity, and fixable exactly if one of them is fixed |
| `GateFindings.MergeIgnoresOrderAndRepeats` | packages/rab-docker/scripts/image-security/image_gate.py:829-860 | the merge depends only on the set of records, except for `type` |
| `GateFindings.FirstRecordGivesType` | packages/rab-docker/scripts/image-security/image_gate.py:837 | `type` is that of the first record of the key |
| `GateFindings.MoreRecordsOnlyAdd` | packages/rab-docker/scripts/image-security/image_gate.py:829-860 | more records never remove a finding, lower its severity or clear `fixable` |
| `ReleaseGate.Check.Fail` | packages/rab-docker/scripts/image-security/image_gate.py:72-73 | a failure is appended and nothing else changes |
| `ReleaseGate.Check.Hold` | packages/rab-docker/scripts/image-security/image_gate.py:75-76 | a hold is appended and nothing else changes |
| `ReleaseGate.ValidateDecisions` | packages/rab-docker/scripts/image-security/image_gate.py:213-265 | the register loop with its ten refusals and its set of decided pairs |
| `ReleaseGate.ValidatedDecisions` | packages/rab-docker/scripts/image-security/image_gate.py:213-265 | what it lets through is in the register, in force today and at most 180 days long, no two decide one advisory for one package; and it adds no failure exactly if nothing was refused |
| `ReleaseGate.ValidateWatchList` | packages/rab-docker/scripts/image-security/image_gate.py:268-281 | the watch-list loop and its refusals |
| `ReleaseGate.ApplyWatchList` | packages/rab-docker/scripts/image-security/image_gate.py:872-887 | the watch-list loops: findings added or raised, and a hold for every package that has drifted |
| `ReleaseGate.WatchOnlyAdds` | packages/rab-docker/scripts/image-security/image_gate.py:872-887 | the watch list never removes or lowers a finding and never touches `fixable` or aliases |
| `ReleaseGate.FirstCovering` | packages/rab-docker/scripts/image-security/image_gate.py:896-897 | the first decision that covers a finding, or that none does |
| `ReleaseGate.ReportGroups` | packages/rab-docker/scripts/image-security/image_gate.py:916-930 | every failing or held finding, and no other, is reported in the message of its group |
| `ReleaseGate.Vulns` | packages/rab-docker/scripts/image-security/image_gate.py:863-930 | the whole check: exactly the failures and holds of the register, the watch list and the verdicts |
| `ReleaseGate.PassIff` | packages/rab-docker/scripts/image-security/image_gate.py:81-85 | in release mode PASS holds exactly if register and watch list are in order, nothing has drifted, and every High or Critical finding is unfixable and decided |
| `ReleaseGate.ModesAgreeOnPass` | packages/rab-docker/scripts/image-security/image_gate.py:81-85 | PASS means the same in both modes, and a pull request fails only where a release does |
| `ReleaseGate.PassIsSound` | packages/rab-docker/scripts/image-security/image_gate.py:863-930 | after PASS every High or Critical record of either scanner is in a finding that no record marks fixed and that a decision in force covers, for this role, exactly this package, and the id or an alias |
| `ReleaseGate.WatchedFinding` | packages/rab-docker/scripts/image-security/image_gate.py:872-887 | what the watch list makes of a finding depends on which of its entries apply, not on their order |
| `ReleaseGate.FixableFailuresOnlyGrow` | packages/rab-docker/scripts/image-security/image_gate.py:898-901 | with any larger set of records and any larger watch list a fixable High or Critical finding stays, and it fails whatever the register says |
| `ReleaseGate.NewAliasClearsAHold` | packages/rab-docker/scripts/image-security/image_gate.py:896-914 | this is not so for holds: a record that brings the alias a decision names clears one |
| `ReleaseGate.HoldsClearExactly` | packages/rab-docker/scripts/image-security/image_gate.py:872-914 | a finding on hold, brought up by scanners or the watch list, is cleared by added records and watch-list entries exactly when no record of it is fixed and one of them gives it a name under which its package is decided |
| `OciSlim.SlimCopy` | packages/rab-docker/scripts/image-security/image_gate.py:1946-1972 | the worklist loop, without a visited set, ends on every acyclic layout with sharing and computes the copy |
| `OciSlim.WorkShrinks` | packages/rab-docker/scripts/image-security/image_gate.py:1963-1966 | each digest taken off, with its manifests put on, leaves less work in the unfolded graph |
| `OciSlim.ReachableDone` | packages/rab-docker/scripts/image-security/image_gate.py:1961-1966 | when the list is empty every digest reachable from the index has been taken off |
| `OciSlim.SlimIsExact` | packages/rab-docker/scripts/image-security/image_gate.py:1946-1972 | it succeeds exactly when every reachable manifest and every blob kept with one can be read, and the copy holds exactly the reachable manifests, their configs and the layers of attestations |
| `OciSlim.SlimReadsTheSame` | packages/rab-docker/scripts/image-security/image_gate.py:1829-1867 | `layout_entries` and every blob read of the manifest check, that of a candidate index included, give the same on the copy as on the layout, errors included |
| `SemVer.MatchExactly` | packages/rab-docker/scripts/image-security/image_gate.py:174 | the pattern matches exactly the texts of its language, with the groups they are put together from |
| `SemVer.VersionReads` | packages/rab-docker/scripts/image-security/image_gate.py:177-186 | the text of a version, with white space around, has the key of its numbers and identifiers; build metadata is ignored |
| `SemVer.KeysAreOrdered` | packages/rab-docker/scripts/image-security/image_gate.py:177-186 | comparing keys as Python tuples is a total order |
| `SemVer.PreOrder` | packages/rab-docker/scripts/image-security/image_gate.py:185-186 | comparing identifier tuples is the prerelease order: numeric below alphanumeric, a proper prefix below its extension |
| `SemVer.PrecedenceAgrees` | packages/rab-docker/scripts/image-security/image_gate.py:177-186 | for all versions comparing keys is precedence by section 11 of Semantic Versioning 2.0.0, equal exactly for versions that differ in build metadata only |
| `Scrubber.Cap` | packages/rab-server/src/instrument.ts:100-105 | the loop computes the capped string |
| `Scrubber.CutAt` | packages/rab-server/src/instrument.ts:102-103 | the cut is at 0 or just after a separator, the last one within the limit |
| `Scrubber.CapTwice` | packages/rab-server/src/instrument.ts:100-105 | capping again changes nothing; the result is longer than the limit exactly when the string is and the last character within the limit is a separator |
| `Scrubber.CappedIsLonger` | packages/rab-server/src/instrument.ts:100-105 | an input: 2049 spaces are still 2049 characters when capped |
| `Scrubber.Scrubbing.ScrubData` | packages/rab-server/src/instrument.ts:153-193 | the recursion with its shared `seen` set, on any graph, computes the model function and only reads the graph |
| `Scrubber.Scrubbing.ItemsOf` | packages/rab-server/src/instrument.ts:165-169 | the array branch |
| `Scrubber.Scrubbing.FieldsOf` | packages/rab-server/src/instrument.ts:174-191 | the entry loop with its three key tests |
| `Scrubber.EachObjectOnce` | packages/rab-server/src/instrument.ts:162-163 | every object of a cyclic or shared graph is expanded at most once, in one place of the result, and only if it was not seen before |
| `Scrubber.ResultShows` | packages/rab-server/src/instrument.ts:153-193 | a result shows its value place by place and key by key: redacted text, values that are no objects, dates, copies of objects, and marks only for objects too deep or already seen; no object of the graph is passed on |
| `Scrubber.ResultsFit` | packages/rab-server/src/instrument.ts:153-193 | a result nests at most 8 levels, has at most 1000 places in each, holds only strings that are fixed marks or went through redaction (of an Error the message part), no object of the graph but dates, and only keys of entries of the copied object that are not dropped |
| `Scrubber.NameIsNotRedacted` | packages/rab-server/src/instrument.ts:171 | an input: an Error whose name redaction would filter is passed on with its name |
| `Scrubber.SeenAreMade` | packages/rab-server/src/instrument.ts:162-163 | where no key overwrites another, the objects seen in the end are those seen before and those expanded in the result, so an object marked as circular has its copy there |
| `Scrubber.NothingElseGetsOut` | packages/rab-server/src/instrument.ts:153-193 | two graphs that differ only under dropped or sensitive keys, in queries and fragments of URLs, past the first thousand places, or in what redaction takes out of strings give the same result, and it holds no object through which they could be told apart |
| `Scrubber.KeysOfARecord` | packages/rab-server/src/instrument.ts:174-191 | a key is in the result exactly if a kept entry yields it, with the value of the last such entry: the placeholder if that entry is sensitive |
| `Scrubber.PlaceholderStays` | packages/rab-server/src/instrument.ts:183-190 | a sensitive entry's placeholder is there at the end exactly if the last kept entry of the same resulting key is sensitive too, or is a text that redaction turns into the placeholder, or an object at the depth limit |
| `Scrubber.PlaceholderLost` | packages/rab-server/src/instrument.ts:182-190 | two keys that redaction makes one, and a later harmless entry takes the placeholder's place |
| `AuthPacer.Ledger.Observe` | packages/rab-e2e-testing/web/support/live-pacing.ts:18-24 | a call is recorded at the current time and nothing is forgotten |
| `AuthPacer.Ledger.Pace` | packages/rab-e2e-testing/web/support/live-pacing.ts:27-34 | the wait ends, forgets only calls that have left the window, leaves room for the upcoming calls, and does not wait when they fit at once |
| `AuthPacer.Ledger.Forget` | packages/rab-e2e-testing/web/support/live-pacing.ts:30 | the filter keeps exactly the calls of the window |
| `AuthPacer.WaitCanEnd` | packages/rab-e2e-testing/web/support/live-pacing.ts:29-32 | the exit test can be met by waiting exactly if at most 4 calls are upcoming |
| `AuthPacer.FiveWaitForEver` | packages/rab-e2e-testing/web/support/live-pacing.ts:29-32 | an input: for 5 upcoming calls the exit test holds at no time |
| `AuthPacer.SpacedIsSafe` | packages/rab-e2e-testing/web/support/live-pacing.ts:13-15 | five calls in a row always span 61 seconds exactly if no 61-second window, whatever its start, holds more than 4 of them |
| `AuthPacer.Run` | packages/rab-e2e-testing/web/support/live-pacing.ts:27-34 | over every run of batches, each paced and finished before the next, all planned calls are made and no 61-second window of the whole history, whenever it starts, holds more than 4 of one kind |
| `AuthPacer.ServerNeverRefuses` | packages/rab-e2e-testing/web/support/live-pacing.ts:4-14 | if no call takes more than a second to arrive, the server sees fewer than 5 in every 60 seconds |

## Left out

- The Python lexer, scanner and line joiner of `image_gate.py` are not modelled beside the TypeScript ones: they differ on a backslash at the end of input, on reals that are whole, on chains of exactly 32 references and on unknown fonts.
- Fonts: a font is a number of bytes per code, a decoding and a width function; encodings, ToUnicode maps and width arrays are not read.
- The object table: `parseObjects`, `decodeStream` and the search for the catalog are inputs of the model, and so are decoded streams.
- Zlib, SHA-256 and HMAC; a blob of an OCI layout is a document that can be read or cannot.
- Floating-point rounding, `toFixed`, the error function and `Math.hypot`: reals, a parameter for the tail of the p-value, and an abstract length for the font size.
- PngPredictor.ProgramsAgree: parameters are natural numbers; fractions and negative numbers, which the two programs also read differently, are not modelled.
- PageTree.NoPageTwice: for graphs with ways down longer than the depth limit only the one direction is stated, since what is left out there depends on the order of the walk.
- PageTree.HandedIsNearest: a chain of more than 32 references counts as a reference to nothing, as in `resolve()`.
- PdfMeaning.ValueMeansWhatIsRead: an entry that refers to no object counts as an entry, since the reader does not look the object up; generation numbers and the difference of 7 and 7.0 are not kept by its values.
- Images drawn by `Do` are recorded with their size but nothing is proved about them beyond the step relation.
- MannWhitney.SortArranges: the sort of the source is any arrangement in order; an insertion sort stands for it in the whole function.
- ReleaseGate.Vulns: the order of messages, the row and count tables, infos and files of `cmd_vulns` are not modelled; the order of groups is left open.
- ReleaseGate.ValidateDecisions: dates are day numbers given by a parameter for `date.fromisoformat`, digits are those of ASCII; a register with values of the wrong JSON type ends the Python program with an exception, which is not modelled.
- OciSlim.SlimCopy: the digest graph is acyclic, as content addressing makes it; the check that the destination does not exist is left out.
- Base32.Base32Decode: white space and upper case are those of ASCII and the no-break space; other Unicode letters that upper-case into the alphabet are not modelled.
- SemVer.MatchExactly: digits and white space are those of ASCII; Python's pattern also takes other Unicode digits.
- Scrubber.Cap: texts with characters beyond the basic plane, whose length the source counts in code units, are not modelled; nor is a cut between two such units in a key or an Error's name.
- Scrubber.Scrubbing.ScrubData: the patterns of `redactString` and of the keys are parameters; getters that throw, `__proto__` as a key, objects changing while they are scrubbed and the order of keys are not modelled.
- AuthPacer.Run: the clock does not run backwards, and timers fire at most 250 ms early; batches of one kind do not overlap.
- Csv.ParseCsv: a record is a map; the order of its keys is not modelled.
- Jain.Fairness: only the index; percentiles, minima and maxima of the report are left out.
- Docker, git, GitHub, database and HTTP calls, the other checks of the gate, React, Playwright, Nest and Swift code, and report writers: their logic is in libraries or settled by one branch.
