# Proofs about natural-lsp

A model, in Dafny 4.11, of the hard parts of the Natural language server: cross-file resolution and the index behind
it, the lexer and parser, position arithmetic, and semantic tokens. Code that changes state step by step is modelled
as classes and loops, proved against specification functions; what the code promises is proved about those functions,
for all inputs and all runs. `dafny verify dfyconfig.toml` verifies everything.

## What is modelled

**Names, libraries and resolution** (`Text`, `Model`, `Identity`, `NameIndex`, `Resolution`, `References`,
`Agreement`, `Invalidation`, `EdgeBinding`). An index maps paths to analyses and caches a name map. Every edge is
bound through an explicit library, the steplib chain, or the flat namespace; `EdgeBinding` says to what, in terms of
the indexed files alone. The main result is `IncrementalEqualsFull`: for index changes that only add, re-resolving the
affected files gives exactly the full result, bindings and warnings. Reference search inverts resolution, completion
agrees with it, and the second resolver, for fields, agrees with the first under an exact condition.

**Interleavings** (`NameCacheProtocol`, `PublishProtocol`, `DocumentStore`, `IndexCache`). The double-checked name
cache with its read and write locks, the background build that publishes and replays while edits arrive, the document
store, and builds through the on-disk cache over a changing disk are machines whose every step keeps an invariant; the
claims hold in every reachable state.

**Bytes, lines and columns** (`Utf`, `Positions`, `LineWidths`, `SourceLines`, `ClientText`). Bytes are characters
below 256. `ClientText` ties the conversions to the encodings themselves: a range selects, in the client's UTF-16,
exactly the bytes the model means. Decoding follows section 3 of RFC 3629, with U+FFFD of width 1 for a malformed
byte, and surrogate pairs section 2.1 of RFC 2781. Lines of the protocol end at LF; lines of the lexer at CR, LF or
CRLF; `TokenLines` says where they agree.

**Lexer, parser and nesting** (`Lexer`, `TokenRanges`, `Syntax`, `DefineSyntax`, `ClauseSyntax`, `StatementSyntax`,
`Parser`, `TokenKinds`, `StatementMeaning`, `Nesting`, `LevelForest`, `DDMNesting`, `DDMReport`, `HostVars`). The
lexer is a class proved against a function of its state, and `TokenKinds` tells kind, extent and literal of every
token from the bytes of the source. The parser is a class proved against a reference: functions from the token stream
to the nodes of every statement, loop bodies included, and to the place where reading goes on. Its methods also carry
a measure on unread bytes and the current token, positions that never move back, and the placement of nodes.
`StatementMeaning` says keyword by keyword which node the reference leaves and what it is named. Nesting by level is
one specification used twice: for field objects linked by reference, and for DDM rows kept by value in slices whose
backing arrays an append may fill or replace while the stack holds addresses into them.

**Semantic tokens** (`TokenMerge`, `TokenLines`, `TokenWire`, `SortStability`). The precedence merge, the ranges of
tokens on the lines of the protocol, the splitting of tokens at line ends, the in-place sort, and the relative stream
of Language Server Protocol 3.17, section "Semantic Tokens".

Maps whose iteration order Go leaves open are iterated in an arbitrary order, so results hold for every order.

## Where the code differs from its comments

- `internal/analysis/natural/parser.go:1699-1705` calls the forced advance in a loop body a defence that no present path
  reaches. It is reached, at every DEFINE inside a loop body and nowhere else (`Parser.TokenParser.ParseBodyStatement`).
- `internal/analysis/natural/semantictokens.go:252-253` says an unterminated string ends at its last byte. It ends one
  past it (`TokenRanges.RangeIsExactIff`).
- `internal/server/semantic_tokens.go:198-199` calls the exchange sort stable. Two tied entries before a smaller one come
  out reversed (`SortStability.SmallerBehindTiesReverses`); `SortStability.StableIff` is the exact condition.
- `internal/analysis/natural/sql.go:258-259` says a name starts with a sigil or a letter. It starts with neither exactly
  for a hyphen, and for a digit behind INDICATOR or LINDICATOR (`HostVars.NameOffRuleIff`).
- The lexer does not count line ends inside string literals, so later tokens lie behind their true line
  (`TokenRanges.PositionTrueIffNoStringCrossed`).
- READ RESULT without SET, and a lone `+` in a field, restore the tokens but not the lexer: the token behind is lost
  (`Parser.TokenParser.TryResultSet`, `DefineSyntax.BarePlusLosesToken`).
- Loop bodies silently lose FIND, GET and record UPDATE and DELETE statements, and only those
  (`StatementSyntax.TurnLosesIff`, `StatementSyntax.BodyLosesDelete`).
- Completion and the USING edge can find a data area that the field resolver misses
  (`Agreement.ShadowedDataAreaIsMissed`).
- Replay can put an older buffer back into the index (`PublishProtocol.LatestBufferCanBeLost`).

## Model

| member | source | states |
|---|---|---|
| Identity.BestMatchPicks | internal/workspace/resolution.go:170-188 | the running longest match ends on an owning library, the first of the longest in configuration order |
| Identity.OwningLibraryIsLongest | internal/workspace/resolution.go:165-196 | the library of a file is the owner with the longest path prefix, earliest on ties |
| Identity.UnownedIffNoMatch | internal/workspace/resolution.go:165-196 | a file has no library exactly when no library path contains it |
| Identity.ObjectIdentity | internal/workspace/resolution.go:165-196 | the loop returns the object name and the owning library so characterised |
| Identity.StemOf | internal/workspace/resolution.go:165-196 | the name of `dir/stem.ext` is the stem in upper case, for every directory, stem and extension |
| Identity.StemWithoutExt | internal/workspace/resolution.go:165-196 | without a dot the name is the whole last segment |
| Identity.BuildSearchChain | internal/workspace/resolution.go:313-333 | the chain is the own library, its declared steplibs in order, then SYSTEM; empty for the flat namespace |
| Identity.ChainInOrder | internal/workspace/resolution.go:313-333 | place by place: the library itself, the steplibs of its first declaration in the order declared, SYSTEM last |
| Identity.UndeclaredChain | internal/workspace/resolution.go:313-333 | an undeclared library is followed by SYSTEM alone |
| Identity.FirstInLibraryPicks | internal/workspace/resolution.go:347-366 | the first candidate of one library in candidate order, if there is any |
| Identity.ViaChainIsEarliest | internal/workspace/resolution.go:347-366 | the chain picks a candidate exactly if some library of the chain has one, and then the first of the earliest such library |
| Identity.ResolveViaChain | internal/workspace/resolution.go:347-366 | the nested loops compute that pick |
| NameIndex.ListingMembers | internal/workspace/index.go:406-427 | the listing of a bucket holds exactly the paths with the name, in path order |
| NameIndex.SortByPathSorts | internal/workspace/index.go:418-424 | sorting a bucket keeps its candidates and puts them in path order |
| NameIndex.SortedArrivalIsListing | internal/workspace/index.go:406-427 | whatever order the map iteration delivers the files in, the sorted bucket is the same |
| NameIndex.BucketInNameMap | internal/workspace/index.go:406-427 | the bucket of a name holds exactly the indexed files whose upper-case name it is |
| NameIndex.GroupByName | internal/workspace/index.go:406-416 | grouping in any iteration order gives buckets that are arrivals of the right files |
| NameIndex.BuildNameMapFrom | internal/workspace/index.go:406-427 | the built map is the one name map of the entries, independent of iteration order |
| NameIndex.CollectByType | internal/workspace/resolution.go:292-300 | filtering keeps exactly the candidates of the type, in order |
| NameIndex.KeepReachable | internal/workspace/index.go:343-364 | candidates outside the search chain are dropped and the rest kept in order |
| NameIndex.CollectWithPrefix | internal/workspace/index.go:317-334 | the candidates collected over all buckets are those with the prefix and type, in some order of distinct paths |
| NameIndex.Index.Add | internal/workspace/index.go:121-137 | one entry is stored, none removed, and the name cache is dropped |
| NameIndex.Index.CachedNameIndex | internal/workspace/index.go:447-468 | the returned map is the name map of the current entries and stays cached for its configuration |
| NameIndex.Index.LookupByName | internal/workspace/index.go:270-291 | the candidates with exactly this name and type |
| NameIndex.Index.NamesWithPrefix | internal/workspace/index.go:312-375 | exactly the reachable candidates with the prefix and type, sorted by path |
| Resolution.IncrementalEqualsFull | internal/workspace/resolution.go:757-852 | recomputing only the affected files gives the entries and ambiguity warnings of a full resolve, for every index change that only adds |
| Resolution.UnaffectedFileKeepsBindings | internal/workspace/resolution.go:791-830 | a file outside the affected set binds every edge and warns as before |
| Resolution.UntouchedNameKeepsBucket | internal/workspace/resolution.go:798-814 | a name no changed object bears keeps its bucket |
| Resolution.RemovalWouldLeaveStaleBinding | internal/workspace/resolution.go:798-805 | were an entry removed instead, the incremental result would keep a binding the full one has not: the theorem needs add-only changes |
| Resolution.ResolvedIsIndexed | internal/workspace/resolution.go:426-537 | a resolved edge points at an indexed file of the type it was resolved as |
| Resolution.ResolvedSiteIsIndexed | internal/workspace/resolution.go:705-732 | every resolved site of a full resolve points at an indexed file of its type |
| Resolution.SiteHasEdge | internal/workspace/resolution.go:705-732 | every site of a full resolve is the source range of an edge of its file |
| Resolution.ResolveByName | internal/workspace/resolution.go:580-675 | the branches over library qualifier, configuration and chain compute the outcome and the warning |
| Resolution.ResolveDataAreaEdge | internal/workspace/resolution.go:547-578 | the first type with a binding decides; otherwise not found |
| Resolution.ResolveEdge | internal/workspace/resolution.go:426-537 | the case split over edge kinds computes the outcome that `EdgeBinding.EdgeBinds` describes on the entries |
| Resolution.ResolveFile | internal/workspace/resolution.go:714-729 | one file's edges are stored in order, later edges with the same range winning, warnings appended |
| Resolution.Resolve | internal/workspace/resolution.go:705-732 | the loop in any order of files gives the full bindings of the index |
| Resolution.CollectAffected | internal/workspace/resolution.go:791-814 | the affected set is the changed paths and all files with an edge naming a changed object |
| Resolution.CopyExcept | internal/workspace/resolution.go:816-830 | the copy holds the old sites and warnings of all other files and the original is left untouched |
| Resolution.ResolveInto | internal/workspace/resolution.go:762-852 | a new set with the incremental bindings; the given set and the index are not modified |
| EdgeBinding.EdgeBinds | internal/workspace/resolution.go:426-537 | told of the entries alone, for every edge: a call binds a Subprogram, a navigation a Program, an inclusion a Copycode, PERFORM an ExternalSubroutine or, with a target range, the file itself; a data area is looked for as local, then parameter, then global; unresolved exactly if no object of that name and type is visible, resolved to the one that goes before all others, ambiguous with one warning among all of two or more |
| EdgeBinding.LoneObjectIsBound | internal/workspace/resolution.go:639-674 | an unqualified edge outside any chain resolves to the only indexed object of its name and type |
| EdgeBinding.QualifiedStaysInside | internal/workspace/resolution.go:592-617 | a qualified edge resolves only inside the library it names and is never ambiguous |
| EdgeBinding.EdgeIsBound | internal/workspace/resolution.go:705-732 | in the full result the last edge of each source range of an indexed file has that outcome |
| EdgeBinding.WarningsAreEdges | internal/workspace/resolution.go:714-729 | the warnings of a file are exactly those of its edges |
| EdgeBinding.CallBindsSubprogram | internal/workspace/resolution.go:460-482 | one workspace: with the subprogram SUB1 alone, CALLNAT binds it and FETCH binds nothing |
| EdgeBinding.IncluderIsInvalidated | internal/workspace/index.go:491-554 | a file whose INCLUDE resolves to a copycode is invalidated with it |
| EdgeBinding.OnlyIncludersAreInvalidated | internal/workspace/index.go:491-554 | every invalidated file has an INCLUDE edge naming the changed object or another dependent |
| References.ScanFile | internal/server/references.go:258-274 | the sites of one file are its edges matching the target, in order |
| References.ReferenceSites | internal/server/references.go:242-326 | the sites found for a target are those of all files |
| References.ReferencesInvertResolution | internal/server/references.go:242-345 | summed over all indexed targets, sites found are exactly the resolved edges: each belongs to one target |
| Agreement.CompletionAgreesWithResolution | internal/workspace/index.go:312-375 | an unqualified name resolves or is ambiguous exactly when the prefix search offers a candidate of that name and type |
| Agreement.ResolvedInEarliestLibrary | internal/workspace/resolution.go:619-636 | a resolved path under a chain lies in the earliest library of the chain that has a candidate |
| Agreement.AmbiguousListsAll | internal/workspace/resolution.go:648-674 | an ambiguous outcome lists exactly the candidates of the type, sorted, and there are at least two |
| Agreement.OneTypeAgrees | internal/workspace/field_resolution.go:219-238 | for one type both resolvers see the same candidates: what one picks the other binds to or lists |
| Agreement.FieldResolverAgreesWithEdge | internal/workspace/field_resolution.go:73-84 | the object the field resolver picks is the one the edge binds to or lists; it misses a bound object exactly if, under a chain, the first data-area type with the name has it only outside the chain and a later type has it inside |
| Agreement.ShadowedDataAreaIsMissed | internal/workspace/field_resolution.go:73-84 | one workspace where the two disagree: a local data area outside the libraries hides the parameter data area of library A that the edge binds |
| Agreement.DDMPathIsReachable | internal/workspace/field_resolution.go:86-101 | under a chain the DDM of the earliest chain library that has one, empty if only libraries outside have |
| Invalidation.ClosedHoldsTrails | internal/workspace/index.go:511-546 | a set closed under direct includers holds every dependent |
| Invalidation.DirectDependents | internal/workspace/index.go:498-509 | the direct dependents are the files with an INCLUDE edge of the name |
| Invalidation.Invalidate | internal/workspace/index.go:491-554 | terminates on cycles and returns, sorted and without duplicates, exactly the transitive dependents by INCLUDE trail |
| NameCacheProtocol.StepKeepsInv | internal/workspace/index.go:447-468 | every step of every thread keeps the lock, cache and call invariants |
| NameCacheProtocol.CacheIsCurrentWhenUnlocked | internal/workspace/index.go:447-468 | whenever nobody writes, a non-empty cache is the name map of the current entries |
| NameCacheProtocol.ReturnsAMomentOfTheCall | internal/workspace/index.go:447-468 | each returned map is the name map of the entries at some moment during the call |
| NameCacheProtocol.NoUpgrade | internal/workspace/index.go:447-460 | no thread asks for the write lock while it holds the read lock |
| NameCacheProtocol.SomeoneCanStep | internal/workspace/index.go:447-468 | no deadlock: while an operation is under way some thread inside one can step |
| PublishProtocol.StepKeepsInv | internal/server/server.go:1957-2092 | every step of build, publish, replay, edit, open, close and watch keeps the invariants |
| PublishProtocol.PairIsConsistent | internal/server/server.go:1957-1962 | in every interleaving, with the lock free the published pair fits: the resolution set is a full resolve of the index |
| PublishProtocol.ReplayedEntriesAreRecent | internal/server/server.go:1989-2040 | after replay each document open since publish has the analysis of a buffer no older than the one stored at publish |
| PublishProtocol.LatestUnlessOvertaken | internal/server/server.go:1989-2040 | the entry is the latest buffer exactly if no edit was received and applied between snapshot and replay |
| PublishProtocol.LatestUnlessEditedInside | internal/server/server.go:1989-2092 | told by the actions of the run: the entry is the latest buffer exactly if the last edit to be stored was not both received and stored between the snapshot and the replay's lock |
| PublishProtocol.LatestBufferCanBeLost | internal/server/server.go:1993-2022 | a run after which nothing is under way and the index holds the older buffer |
| PublishProtocol.StoreHoldsText | internal/server/server.go:1957-2092 | in every run a document is stored exactly while it is open, with the text its last open or change gave |
| PublishProtocol.EditLands | internal/server/server.go:2057-2092 | from any reachable state with the lock free, an edit or watched file nothing interrupts is stored under its path, no other entry changes, and the bindings are a full resolve of the new index |
| PublishProtocol.PublishLands | internal/server/server.go:1957-1988 | a build nothing interrupts publishes the index it computed together with its full bindings |
| PublishProtocol.EntriesChangeOnlyByStores | internal/server/server.go:1989-2092 | besides the publish only an edit and the replay write entries, one path each, and no step removes one |
| PublishProtocol.KeepsPair | internal/server/server.go:2057-2092 | applying an edit under the lock keeps the pair, by the incremental theorem |
| DocumentStore.Store.Open | internal/document/store.go:100-118 | a fresh document replaces whatever was stored under the name, others untouched |
| DocumentStore.Store.Update | internal/document/store.go:128-151 | the stored object changes in place, no other document does, and an unopened name is ignored |
| DocumentStore.Store.Close | internal/document/store.go:156-161 | the document is gone, others untouched |
| DocumentStore.Store.OpenDocuments | internal/document/store.go:81-93 | the snapshot is the values of all open documents |
| DocumentStore.LastEventDecides | internal/document/store.go:100-161 | after any run the last event of a document decides whether it is open and what it holds |
| DocumentStore.NeverNamed | internal/document/store.go:128-161 | updates and closes never create a document |
| IndexCache.Load | internal/workspace/cache.go:160-223 | entries of a valid cache come back, and exactly the scanned files whose hash differs or is missing are stale |
| IndexCache.SaveIndex | internal/workspace/cache.go:73-109 | every indexed entry is saved under the hash of what is on disk, or its path if that cannot be read |
| IndexCache.BuildWithCache | internal/workspace/index.go:615-818 | a build re-analyses stale and unindexed files, keeps the rest, and saves |
| IndexCache.BuildKeepsSound | internal/workspace/index.go:726-815 | every saved entry is the analysis of the content its hash names, but for placeholders of unreadable files and for files too large to analyze |
| IndexCache.RunKeepsSound | internal/workspace/index.go:615-818 | so after any run of builds and cache losses |
| IndexCache.WarmAgreesWithCold | internal/workspace/index.go:615-818 | over any sequence of disks each indexable file, unless its content is its own path, has the object type, edges and other cached fields of a cold build, which are those of the analysis of its bytes |
| IndexCache.WarmDiffersIff | internal/workspace/index.go:665-815 | after any history, an indexable file gets other fields than from a cold build if and only if it holds its own path and the loaded entry carries the placeholder hash with other fields |
| IndexCache.RestoreAfterKeep | internal/workspace/cache.go:86-99 | saved and loaded, an analysis loses its transient part and nothing else |
| IndexCache.ColdIsAnalysis | internal/workspace/index.go:577-610 | a cold build indexes exactly the readable files within the size limit, each with the analysis of its bytes |
| IndexCache.DeletedServesOldAnalysis | internal/workspace/index.go:665-764 | a file gone from the disk keeps its loaded entry, if there is one |
| IndexCache.SecondBuildIsIdle | internal/workspace/index.go:665-815 | a second build of an unchanged disk analyzes nothing and leaves the cache as it is |
| IndexCache.UnindexableServesOldAnalysis | internal/workspace/index.go:746-764 | a file that cannot be indexed now keeps whatever the cache held |
| IndexCache.ContentEqualToPathIsMistaken | internal/workspace/cache.go:75-82 | why the exception: the placeholder for an unreadable file matches a content equal to the path |
| Utf.BoundariesAreOrdered | internal/server/position.go:70-79 | of two code-point boundaries the earlier decodes to the later |
| Utf.UnitsOfPrefix | internal/server/position.go:70-79 | cutting at a boundary does not change the units counted before it |
| Utf.CountUnits | internal/server/position.go:70-79 | the range loop counts the UTF-16 units, malformed bytes as one each |
| ClientText.DecodeInverts | internal/server/position.go:70-79 | decoding inverts the UTF-8 of every code point, in any surroundings |
| ClientText.DecodedIsWritten | internal/server/position.go:70-79 | each rune is a code point as UTF-8 writes it, or U+FFFD of one byte where no code point begins |
| ClientText.UnitsAreWritten | internal/server/position.go:70-79 | the units counted for a rune are those UTF-16 writes it with, two above U+FFFF |
| Positions.LineAt | internal/server/position.go:31-54 | the text of a line between LFs without its CR, empty for a line that does not exist |
| Positions.ByteOffsetToCharacter | internal/server/position.go:58-80 | the clamped offset's code units, wrapped to 32 bits |
| Positions.CharacterToByteOffset | internal/server/position.go:85-108 | the loop computes the inverse |
| Positions.ByteOffsetIsLeastBoundary | internal/server/position.go:85-108 | for any count the inverse is the least boundary with at least that many units before it, or the line end |
| Positions.OffsetRoundTrip | internal/server/position.go:58-108 | bytes to units and back is the identity at every boundary of a line shorter than 2^32 bytes, in both encodings |
| Positions.CharacterRoundTrip | internal/server/position.go:58-108 | units to bytes and back is the identity exactly for the counts some boundary has |
| Positions.PositionRoundTrip | internal/server/position.go:112-202 | model to protocol to model is the identity on boundary positions of lines shorter than 2^32 bytes |
| ClientText.RangeRoundTrip | internal/server/position.go:134-160 | a range on code points comes back with the start it had and an end one column behind its last byte |
| ClientText.CaretStaysCaret | internal/server/position.go:134-160 | a caret converts to equal ends |
| ClientText.SelectionIsBytes | internal/server/position.go:134-160 | the UTF-16 units a client selects in a line are exactly those of the model's bytes, the last included |
| ClientText.TableRangeRoundTrip | internal/workspace/linewidth.go:148-176 | the same for a range converted through the table |
| LineWidths.BuildLineWidthTable | internal/workspace/linewidth.go:57-77 | one width per line of the content |
| LineWidths.MakeLineWidth | internal/workspace/linewidth.go:81-94 | bytes are kept exactly for lines that are not ASCII |
| LineWidths.ComputeCodeUnit | internal/workspace/linewidth.go:104-132 | clamped units of a line, zero outside the table |
| LineWidths.CodeUnitAgrees | internal/workspace/linewidth.go:104-132 | for a line shorter than 2^32 bytes the table gives what reading the content gives |
| LineWidths.TableAgreesWithContent | internal/workspace/linewidth.go:148-176 | if all lines are shorter than 2^32 bytes, every range, in or out of bounds, converts alike through the table and through the content; what that is say `ClientText.RangeRoundTrip` and `ClientText.SelectionIsBytes` |
| LineWidths.LongLineDisagrees | internal/workspace/linewidth.go:81-94 | a line of 2^32 bytes or more does not: its length wraps |
| SourceLines.PositionsIncrease | internal/analysis/natural/semantictokens.go:184-207 | the true positions of bytes strictly increase, so a position names one byte |
| SourceLines.StepIsTrue | internal/analysis/natural/lexer.go:70-94 | a scan step over CR, LF, CRLF or one byte keeps the tracked position true |
| SourceLines.ShiftAdds | internal/analysis/natural/semantictokens.go:277-295 | tracking over two stretches is tracking over both |
| SourceLines.ShiftGrows | internal/analysis/natural/semantictokens.go:277-295 | tracking never moves back |
| Lexer.NameEnd | internal/analysis/natural/lexer.go:118-140 | a name reaches over body bytes and hyphens before a body byte, and no further |
| Lexer.TokenFrom | internal/analysis/natural/lexer.go:97-297 | a token takes at least its first byte, and all but strings stay on their line; its kind, extent and literal are told on the bytes by the `TokenKinds` rows |
| TokenKinds.FirstByteDecides | internal/analysis/natural/lexer.go:97-297 | told on the bytes, both ways for each kind: a comment exactly for a star with nothing but blanks before it on the line or for a slash and a star, a word for a letter or `#`, `&`, `@`, a string for a quote, a number for a digit, an operator for one of ten bytes or a pair, punctuation for one of ten others |
| TokenKinds.LiteralIsBytes | internal/analysis/natural/lexer.go:97-297 | the literal is the bytes read; a word's in upper case, and a keyword exactly if listed; an open string's without its quote |
| TokenKinds.ExtentIsMaximal | internal/analysis/natural/lexer.go:97-297 | where each kind of token ends: a comment before the first line end, a word before the first byte no name goes on with, a number with its last part, a string behind the next quote |
| TokenKinds.DroppedBytes | internal/analysis/natural/lexer.go:70-94 | between tokens exactly blanks, line ends and the bytes no token starts with are dropped |
| TokenKinds.SkipBlanksFlag | internal/analysis/natural/lexer.go:70-94 | behind blanks the line is fresh exactly if it was or a line end was passed |
| TokenKinds.DrainedByBytes | internal/analysis/natural/lexer.go:97-297 | in every source each token's kind, extent and literal follow from its bytes, a star opening a comment exactly if no token of its line stands before it |
| Lexer.Next | internal/analysis/natural/lexer.go:97-297 | a token other than the end consumes a byte, the end is the end of the input, and only blanks and unknown bytes are dropped |
| Lexer.NextMovesOn | internal/analysis/natural/lexer.go:97-297 | tokens start at or behind the lexer and leave it behind them, line by line and column by column |
| Lexer.SpanMovesOn | internal/analysis/natural/lexer.go:395-459 | the opaque scan never moves the position back |
| Lexer.RewindIsExact | internal/analysis/natural/lexer.go:461-490 | rewinding over an operator just lexed restores its start byte, line and column |
| Lexer.Scanner.SkipWhitespace | internal/analysis/natural/lexer.go:70-94 | the loop skips the maximal run of blanks |
| Lexer.Scanner.ConsumeToEOL | internal/analysis/natural/lexer.go:341-350 | stops at the first line end |
| Lexer.Scanner.ConsumeName | internal/analysis/natural/lexer.go:125-140 | stops at the end of the name |
| Lexer.Scanner.ConsumeNumber | internal/analysis/natural/lexer.go:173-223 | digits, an optional fraction and an optional exponent |
| Lexer.Scanner.ConsumeString | internal/analysis/natural/lexer.go:152-170 | stops behind the closing quote, or at the end of the input |
| Lexer.Scanner.ReadWord | internal/analysis/natural/lexer.go:110-225 | the token of a comment line, name, string or number |
| Lexer.Scanner.ReadSymbol | internal/analysis/natural/lexer.go:227-296 | the token of a comment, operator or punctuation, or nothing for an unknown byte |
| Lexer.Scanner.NextToken | internal/analysis/natural/lexer.go:97-297 | token and state are those of `Next` |
| Lexer.Scanner.ScanInterior | internal/analysis/natural/lexer.go:417-458 | stops at the first `>>` with the position true over CR, LF and CRLF |
| Lexer.Scanner.ScanOpaqueSpan | internal/analysis/natural/lexer.go:395-459 | the interior up to `>>`, or to the end and unterminated, or nothing without an opener |
| Lexer.Scanner.ScanOpaqueSpanFrom | internal/analysis/natural/lexer.go:474-490 | the span from behind the rewound opener, and the position after it |
| TokenRanges.LexAll | internal/analysis/natural/semantictokens.go:17-28 | draining gives every token of the source |
| TokenRanges.NextIsTrue | internal/analysis/natural/lexer.go:97-297 | relative to the state before it each token is at its true position, and the lexer never stops inside a CRLF |
| TokenRanges.TokenKeepsLag | internal/analysis/natural/lexer.go:157-166 | the tracked position is true or at least a line behind, and falls behind exactly at a string crossing a line end |
| TokenRanges.PositionTrueIffNoStringCrossed | internal/analysis/natural/lexer.go:152-170 | a token's line and column are true exactly if no string before it crosses a line end |
| TokenRanges.BuildLineStarts | internal/analysis/natural/semantictokens.go:125-145 | the table of line starts under CR, LF and CRLF |
| TokenRanges.SeekReachesLine | internal/analysis/natural/semantictokens.go:157-165 | a scan that has not reached the target's line stops where a scan from that line's start does, or at the end |
| TokenRanges.SeededSeekIsSeekFromZero | internal/analysis/natural/semantictokens.go:154-207 | the seeded scan stops at the byte a scan from byte 0 stops at, for every content, line and column |
| TokenRanges.SeekFinds | internal/analysis/natural/semantictokens.go:186-207 | looking for a byte's position finds the byte |
| TokenRanges.TraceIsShift | internal/analysis/natural/semantictokens.go:277-295 | the end scan computes the position of the last byte |
| TokenRanges.FindLastByte | internal/analysis/natural/semantictokens.go:223-270 | the rescans by token kind |
| TokenRanges.ComputeTokenRange | internal/analysis/natural/semantictokens.go:166-299 | the range by seeded seek, rescan and trace |
| TokenRanges.LastByteIsConsumed | internal/analysis/natural/semantictokens.go:223-270 | the rescans stop at the last byte consumed, one past it for an unterminated string |
| TokenRanges.RangeIsExactIff | internal/analysis/natural/semantictokens.go:147-299 | the range is exactly the consumed bytes if and only if no earlier string crosses a line end and the token is not an unterminated string |
| TokenRanges.UnterminatedStringRange | internal/analysis/natural/semantictokens.go:235-262 | a lone quote: the range ends one column past the only byte |
| TokenRanges.StringOverLineEndMisplaces | internal/analysis/natural/lexer.go:152-170 | a plus behind a string over a line end: its position names the string's first line, and its range is not the bytes consumed |
| TokenLines.ByteOnLine | internal/server/position.go:29-56 | where every CR before a byte precedes an LF, its line and column under the lexer's rule name that byte under the protocol's |
| TokenLines.ConsumedIsWellFormed | internal/server/semantic_tokens.go:71-196 | with no lone CR before its last byte, the bytes of any token but an unterminated string start and end on code points of existing lines |
| TokenLines.ExactRangesAreWellFormed | internal/server/semantic_tokens.go:71-196 | a drained token whose range is exact, with no lone CR before its last byte, has a range the encoder splits without underflow |
| TokenLines.LoneCRHasNoLine | internal/server/semantic_tokens.go:71-90 | behind a lone CR an exact range names a line the protocol does not have |
| TokenLines.LineExistsIff | internal/server/position.go:29-56 | the line the lexer gives a byte exists in the protocol if and only if no more lone CRs stand before the byte than LFs behind it |
| TokenLines.ExactRangeExistsIff | internal/server/semantic_tokens.go:71-90 | an exact range lies on existing lines if and only if no more lone CRs stand before its last byte than LFs behind |
| Syntax.SkipTo | internal/analysis/natural/parser.go:1107-1124 | a skip ends on the stop set or the end of the input |
| Syntax.FirstStatementOfAtMostOne | internal/analysis/natural/parser.go:1781-1840 | of at most one node the first statement node is that node, unless its kind is one never looked for |
| Syntax.FirstFromTurnOfOne | internal/analysis/natural/parser.go:1781-1840 | the chain of checks finds a node of any kind it looks for |
| Syntax.KeptConcat | internal/analysis/natural/parser.go:1771-1840 | what a body keeps of a sequence is what it keeps of its parts |
| Syntax.KeptStaysSettled | internal/analysis/natural/parser.go:1681-1732 | dropping statements keeps a body in source order |
| Syntax.LoopIsWellPlaced | internal/analysis/natural/parser.go:1538-1542 | a loop node around such a body is well placed |
| Parser.TokenParser.Advance | internal/analysis/natural/parser.go:1012-1016 | the measure of unread bytes and current token strictly decreases, in the source and in the position |
| Parser.TokenParser.Skip | internal/analysis/natural/parser.go:1107-1124 | stops at the first token of the stop set, never later or earlier |
| Parser.TokenParser.SkipSQLClause | internal/analysis/natural/parser.go:1842-1878 | always leaves the clause keyword behind |
| Parser.TokenParser.ConsumeStringTarget | internal/analysis/natural/parser.go:1903-1927 | the unquoted content, with a diagnostic exactly for an unterminated string |
| Parser.TokenParser.ParseTypeSpec | internal/analysis/natural/parser.go:405-442 | the text up to the closing parenthesis of depth zero, one space for each gap on a line, also for one before that parenthesis |
| DefineSyntax.SpecIsBalanced | internal/analysis/natural/parser.go:405-442 | no prefix of a type specification closes more parentheses than it opens, and the token behind it is the first that would |
| Parser.TokenParser.ParseFieldName | internal/analysis/natural/parser.go:264-318 | a `+` and an adjacent name make one name; otherwise no name, the tokens restored and the lexer one token ahead: that token is lost |
| Parser.TokenParser.ParseDataField | internal/analysis/natural/parser.go:240-403 | level, name or redefined name, view and type as the tokens give them; no field exactly without a name |
| Parser.TokenParser.ParseDataFields | internal/analysis/natural/parser.go:196-238 | all fields of the lines up to the boundary token, in order, and that token stays |
| DefineSyntax.BarePlusLosesToken | internal/analysis/natural/parser.go:264-318 | behind a level number a `+` that joins no name costs the token behind it, even a boundary: the fields are those behind that token |
| Parser.TokenParser.ParseDataSection | internal/analysis/natural/parser.go:135-194 | one node per section with its keyword, USING name and fields, the first starting at DEFINE, the others at their keyword |
| Parser.TokenParser.ParseSubroutine | internal/analysis/natural/parser.go:534-576 | exactly one node of that name from DEFINE on, and the cursor behind the first END or END-SUBROUTINE |
| Parser.TokenParser.ParseMap | internal/analysis/natural/parser.go:578-642 | exactly one node of that name from DEFINE on, with the fields up to the first END or END-MAP, and the cursor behind it |
| Parser.TokenParser.ParseWorkFile | internal/analysis/natural/parser.go:644-731 | exactly one of a node and a diagnostic |
| Parser.TokenParser.ParseDefine | internal/analysis/natural/parser.go:93-117 | only definition nodes, in source order from DEFINE on |
| StatementMeaning.BlockLeaves | internal/analysis/natural/parser.go:534-642 | DEFINE SUBROUTINE and DEFINE MAP leave one Subroutine or Map node of the name behind, a map with its fields |
| StatementMeaning.WorkFileLeaves | internal/analysis/natural/parser.go:644-731 | DEFINE WORK FILE leaves a WorkFile node of the name behind a plain number, or nothing |
| StatementMeaning.SectionsLeave | internal/analysis/natural/parser.go:135-194 | DEFINE DATA leaves DataSection nodes named by their keyword, with a USING name or none, the first at DEFINE |
| StatementMeaning.TypedFieldExample | internal/analysis/natural/parser.go:240-442 | `1 #A (A10)` is a field of that level, name and type |
| StatementMeaning.ViewFieldExample | internal/analysis/natural/parser.go:319-362 | `1 V VIEW OF X` is a view of X if that is on the line |
| StatementMeaning.RedefineExample | internal/analysis/natural/parser.go:240-318 | `1 REDEFINE #A` is a redefinition without a name |
| Parser.TokenParser.ParseCallStatement | internal/analysis/natural/parser.go:733-794 | a Call node is recorded exactly for a non-empty string or identifier target on the keyword's line, under that name; kind and name are spelled out in `StatementMeaning.CallLeaves` |
| StatementMeaning.CallLeaves | internal/analysis/natural/parser.go:733-794 | CALLNAT leaves one Call node of the target on its line, if that is a string or an identifier and not empty |
| StatementMeaning.TargetIsText | internal/analysis/natural/parser.go:1903-1945 | the name a target gives is its source text: the bytes between the quotes, or the identifier in upper case |
| StatementMeaning.CallingProgram | internal/analysis/natural/parser.go:30-43 | the source CALLNAT 'SUB1' is the program of one Call node named SUB1 |
| StatementMeaning.PerformLeaves | internal/analysis/natural/parser.go:796-848 | PERFORM leaves one Perform node of the name on its line, none for BREAK |
| StatementMeaning.IncludeLeaves | internal/analysis/natural/parser.go:850-894 | INCLUDE leaves one Include node of the target on its line |
| StatementMeaning.FetchLeaves | internal/analysis/natural/parser.go:896-947 | FETCH leaves one Fetch node of the target on its line, behind REPEAT or RETURN |
| StatementMeaning.RunLeaves | internal/analysis/natural/parser.go:949-1010 | RUN leaves one Run node of the program, with the library as an operand |
| StatementMeaning.FindLeaves | internal/analysis/natural/parser.go:1244-1298 | FIND and FINDNAT leave one Find node of the view on their line |
| StatementMeaning.ReadLeaves | internal/analysis/natural/parser.go:1148-1242 | READ RESULT SET leaves one ReadResultSet node with its table, any other READ one Read node of its view |
| StatementMeaning.GetLeaves | internal/analysis/natural/parser.go:1300-1363 | GET leaves one Get node of the view on its line, GET SAME one without a name |
| StatementMeaning.StoreLeaves | internal/analysis/natural/parser.go:1365-1409 | STORE leaves one Store node of the file on its line, or of none |
| StatementMeaning.TransactionLeaves | internal/analysis/natural/parser.go:1411-1491 | COMMIT, ROLLBACK and CALLDBPROC leave a node of their own kind, the last named by its target |
| StatementMeaning.InsertLeaves | internal/analysis/natural/parser.go:1952-2044 | INSERT INTO leaves one Insert node with its operands, any other INSERT none |
| StatementMeaning.InsertHoldsValues | internal/analysis/natural/parser.go:1952-2044 | of `INSERT INTO T VALUES (` the operands are the table and then the values |
| StatementMeaning.ValuesExample | internal/analysis/natural/parser.go:2003-2041 | the values `:A, 1` are a host variable A and the number 1 |
| StatementMeaning.MergeLeaves | internal/analysis/natural/parser.go:2292-2336 | MERGE INTO leaves one Merge node with its table, any other MERGE none |
| StatementMeaning.UpdateLeaves | internal/analysis/natural/parser.go:2046-2201 | UPDATE leaves a RecordUpdate with its label, an SQLUpdate with its operands, or with a table alone nothing |
| StatementMeaning.UpdateClauseTags | internal/analysis/natural/parser.go:2100-2196 | names behind SET are tagged as targets, names behind WHERE as conditions, in that order |
| StatementMeaning.DeleteLeaves | internal/analysis/natural/parser.go:2203-2290 | DELETE FROM leaves an SQLDelete with its operands, any other DELETE a RecordDelete with its label |
| StatementMeaning.DeleteClauseTags | internal/analysis/natural/parser.go:2240-2285 | the table behind FROM and the names behind WHERE carry the tags of their clauses |
| StatementMeaning.SelectLeaves | internal/analysis/natural/parser.go:1493-1543 | SELECT SINGLE leaves a SelectSingle without a body, any other SELECT a Select whose body ends at END-SELECT or LOOP |
| StatementMeaning.ProcessLeaves | internal/analysis/natural/parser.go:2338-2450 | PROCESS SQL leaves one ProcessSQL node of the DDM on its line with the opaque text, or nothing |
| StatementMeaning.SkipStopsAt | internal/analysis/natural/parser.go:1107-1124 | the skip behind a statement stops exactly at DEFINE, a statement keyword, a loop terminator, END or END-DEFINE |
| Parser.TokenParser.ParsePerformStatement | internal/analysis/natural/parser.go:796-848 | the name on the keyword's line, none for PERFORM BREAK; without a token there no node |
| Parser.TokenParser.ParseIncludeStatement | internal/analysis/natural/parser.go:850-894 | the target on the keyword's line; without a token there no node |
| Parser.TokenParser.ParseFetchStatement | internal/analysis/natural/parser.go:896-947 | always a node, named by the target behind an optional REPEAT or RETURN on the keyword's line |
| Parser.TokenParser.ParseRunStatement | internal/analysis/natural/parser.go:949-1010 | the program on the keyword's line and the library behind it; without a token there no node |
| Parser.TokenParser.ParseFindStatement | internal/analysis/natural/parser.go:1244-1298 | the view behind a row limit and NUMBER on the keyword's line; without a token there no node |
| Parser.TokenParser.ParseGetStatement | internal/analysis/natural/parser.go:1300-1363 | the view on the keyword's line, none but a node for GET SAME, otherwise no node |
| Parser.TokenParser.ParseStoreStatement | internal/analysis/natural/parser.go:1365-1409 | always a node, named by the file behind the clause words on the keyword's line |
| Parser.TokenParser.ParseTransactionStatement | internal/analysis/natural/parser.go:1411-1459 | the node covers the keyword only, whatever is skipped |
| Parser.TokenParser.ParseInsertStatement | internal/analysis/natural/parser.go:1952-2044 | a node exactly if INTO follows, with the table and the values as operands, in source order |
| Parser.TokenParser.ParseUpdateStatement | internal/analysis/natural/parser.go:2046-2201 | without an identifier a record update; with a table and SET or WHERE an SQL update with the table, the targets and the names of WHERE; otherwise no node |
| ClauseSyntax.AssignmentAt | internal/analysis/natural/parser.go:2100-2196 | each name of a SET or WHERE list is one operand, in order, and a host variable exactly if a colon stands before it with no name between |
| ClauseSyntax.AssignmentCount | internal/analysis/natural/parser.go:2100-2196 | there are as many operands as names |
| Parser.TokenParser.ParseSQLUpdate | internal/analysis/natural/parser.go:2079-2200 | an SQL node exactly if SET or WHERE follows the table |
| Parser.TokenParser.ParseDeleteStatement | internal/analysis/natural/parser.go:2203-2290 | one node, SQL exactly if FROM follows, then with the table and the names of WHERE |
| Parser.TokenParser.ParseMergeStatement | internal/analysis/natural/parser.go:2292-2336 | a node exactly if INTO follows, with the table |
| Parser.TokenParser.ParseSpan | internal/analysis/natural/parser.go:2414-2437 | the opaque text from the rewound opener on, with a diagnostic exactly if unterminated, and the measure no higher than before the opener was read |
| Parser.TokenParser.ParseProcessOperands | internal/analysis/natural/parser.go:2376-2450 | a node exactly for an identifier on the keyword's line, otherwise one diagnostic |
| Parser.TokenParser.ParseProcessBody | internal/analysis/natural/parser.go:2401-2450 | a node named by the DDM, with the text of the span and the DDM token still the previous one |
| Syntax.BodyIsInterior | internal/analysis/natural/parser.go:2405-2415 | the text is the source from behind `<<` to the first `>>` or the end, nothing after a single `<` |
| Parser.TokenParser.ParseCallOrRecord | internal/analysis/natural/parser.go:45-68 | ten statement kinds each leave exactly the node, operands and cursor the reference gives for the tokens behind their keyword |
| Parser.TokenParser.TryResultSet | internal/analysis/natural/parser.go:1159-1199 | without SET the tokens are restored, but the lexer stays behind the token after RESULT, which is lost |
| Parser.TokenParser.ParseReadStatement | internal/analysis/natural/parser.go:1148-1242 | exactly one node: a result-set loop with its table if RESULT SET follows, else a read of the view found from the restored tokens and the lexer one token further |
| Parser.TokenParser.ParseSelectStatement | internal/analysis/natural/parser.go:1493-1543 | exactly one node with the columns, INTO, FROM and WHERE operands; for SINGLE of the single kind and without a body |
| ClauseSyntax.SelectIsInClauseOrder | internal/analysis/natural/parser.go:1545-1675 | operands come as columns, INTO, FROM, WHERE, each from its own run, and a clause that is not next has none |
| ClauseSyntax.NameRunTakesNames | internal/analysis/natural/parser.go:1545-1675 | a clause takes each name of its run once, in order |
| Parser.TokenParser.ParseLoopBody | internal/analysis/natural/parser.go:1677-1732 | statement by statement the body is that of the reference, and so is the place it ends; forced advances are as many as its turns at DEFINE; a missing terminator is reported at the opening token |
| Parser.TokenParser.ParseBodyStatement | internal/analysis/natural/parser.go:1684-1706 | each turn makes progress and ends where the reference turn does, with what that keeps; the forced advance fires exactly at the keyword DEFINE |
| Parser.TokenParser.ParseStatement | internal/analysis/natural/parser.go:1750-1769 | DEFINE leaves the parser where it is and yields nothing; any other statement yields exactly what the reference turn keeps of it |
| Parser.TokenParser.DispatchStatement | internal/analysis/natural/parser.go:45-91 | the measure strictly decreases on every input; the nodes appended and the cursor behind are those of the reference, for all statements and definitions |
| Parser.TokenParser.Parse | internal/analysis/natural/parser.go:30-43 | terminates on every byte string, and the program is node for node that of the reference, nested bodies included, well placed and in source order |
| StatementSyntax.TurnLosesIff | internal/analysis/natural/parser.go:1734-1840 | a turn of a loop body keeps the statement's node exactly unless it is FIND, FINDNAT, GET, DELETE without FROM or UPDATE without an identifier; at DEFINE only the keyword is passed |
| StatementSyntax.BodyLosesDelete | internal/analysis/natural/parser.go:1771-1840 | one source: by itself its DELETE leaves a node, as a loop body it leaves none |
| StatementSyntax.DefineStopsSkip | internal/analysis/natural/parser.go:1734-1761 | the skip meant to pass a DEFINE stops on it |
| StatementSyntax.BodyMovesOn | internal/analysis/natural/parser.go:2414-2437 | the rewind over `<` never takes the parser back behind the DDM name |
| Syntax.KeptOfBare | internal/analysis/natural/parser.go:1771-1840 | what a body drops does not depend on where nodes end |
| Nesting.Search | internal/analysis/natural/parser.go:225-236 | the innermost group of lower level still open behind an item, or none |
| Nesting.FlattenNest | internal/analysis/natural/parser.go:202-238 | the forest of a sequence flattens to it in preorder and is well nested |
| Nesting.NestFlatten | internal/analysis/natural/parser.go:202-238 | it is the only well-nested forest with that preorder: nesting undoes flattening |
| Nesting.SiblingsNeverRise | internal/analysis/natural/parser.go:225-236 | later siblings never have a higher level |
| Nesting.NextSibling | internal/analysis/natural/parser.go:225-236 | behind a child's subtree comes the next child of the same parent, or the parent's end |
| Nesting.KidsGrow | internal/analysis/natural/parser.go:230-236 | a new item becomes the last child of its parent and changes no other children |
| LevelForest.Pop | internal/analysis/natural/parser.go:225-228 | popping leaves the parent of the new field and its ancestors |
| LevelForest.Attach | internal/analysis/natural/parser.go:230-236 | the object joins the children of the stack's top, or the roots; all others keep theirs |
| LevelForest.ChildrenRepresent | internal/analysis/natural/parser.go:202-238 | the objects below a field are exactly its subtree of the forest |
| LevelForest.NestFields | internal/analysis/natural/parser.go:202-238 | the field objects form exactly the forest of the fields |
| DDMNesting.Append | internal/analysis/natural/ddm.go:109-121 | contents kept and one added, in place or in a new array with the old one untouched |
| DDMNesting.Place | internal/analysis/natural/ddm.go:109-122 | the row lies in its parent's current array, every other row stays readable where it is, and the returned address is the row's |
| DDMNesting.OpenGroupsStay | internal/analysis/natural/ddm.go:104-122 | the array an append may replace holds no open group: no address on the stack goes stale |
| DDMNesting.Pop | internal/analysis/natural/ddm.go:104-107 | any row pops the groups not below it; its parent's address is on top |
| DDMNesting.ViewIsKids | internal/analysis/natural/ddm.go:69-125 | the children's slice of a row is its children |
| DDMNesting.KidsHold | internal/analysis/natural/ddm.go:69-125 | what lies below a row is its subtree of the forest |
| DDMNesting.NestRows | internal/analysis/natural/ddm.go:69-125 | the definitions form exactly the forest of the rows: each row once, in order, below its innermost open group |
| DDMReport.ScanHeader | internal/analysis/natural/ddm.go:58-67 | the first header line decides whether the report is relational |
| DDMReport.HeaderExamples | internal/analysis/natural/ddm.go:58-67 | the first header decides, and only the whole word SQL makes a report relational |
| DDMReport.SkippedLines | internal/analysis/natural/ddm.go:148-177 | exactly which lines carry no field, by their bytes |
| DDMReport.RowIffColumns | internal/analysis/natural/ddm.go:185-213 | any other line is a row exactly with a digit in column 2 and a byte other than a blank among columns 7 to 38 |
| DDMReport.RowIsColumns | internal/analysis/natural/ddm.go:185-213 | a row's level is the digit of column 2, G or P in column 0 opens a group, and the name is what stands in columns 7 to 38 without surrounding blanks, in capitals |
| DDMReport.RowsConcat | internal/analysis/natural/ddm.go:69-83 | every line is read by itself, and rows keep the order of lines |
| DDMReport.ExtractDDMDefinitions | internal/analysis/natural/ddm.go:55-126 | nothing for a relational report, otherwise the forest of the data rows |
| HostVars.BodyScanner.ScanName | internal/analysis/natural/sql.go:280-291 | an optional sigil and the name bytes behind it |
| HostVars.BodyScanner.SkipParenSubscript | internal/analysis/natural/sql.go:297-323 | stops behind the first closing parenthesis, the position true across line ends |
| HostVars.BodyScanner.ScanReference | internal/analysis/natural/sql.go:353-406 | what the colon announces is captured and the cursor is behind it |
| HostVars.ScanOpaqueHostVars | internal/analysis/natural/sql.go:266-418 | terminates and reports exactly the references found, each over its true span |
| HostVars.FoundInOrder | internal/analysis/natural/sql.go:325-415 | references strictly increase and each starts behind all the one before consumed |
| HostVars.RefsStartAtColons | internal/analysis/natural/sql.go:353-414 | each range starts at the true position of a colon under CR, LF and CRLF, and is not empty |
| HostVars.RefsStartAtSourceColons | internal/analysis/natural/sql.go:261-272 | with a true body start these are the true positions in the source file |
| HostVars.NoReferenceInSubscript | internal/analysis/natural/sql.go:402-406 | no reference starts inside a consumed subscript |
| HostVars.NameOffRuleIff | internal/analysis/natural/sql.go:368-400 | a captured name starts with neither sigil nor letter exactly if a hyphen stands where the name starts, or a digit behind an indicator word and its colon |
| HostVars.IndicatorTakesDigits | internal/analysis/natural/sql.go:382-400 | one such body: `:INDICATOR:10` captures `10` |
| TokenWire.LegendPlaces | internal/server/semantic_tokens.go:10-25 | the numbers on the wire are the places of the ten kinds in the announced legend |
| TokenWire.SplitCoversToken | internal/server/semantic_tokens.go:71-196 | a well-formed token gives one entry per line, in order, spanning exactly its characters there: nothing underflows |
| TokenWire.SortEntries | internal/server/semantic_tokens.go:198-207 | in place: the exchange sort, with a result that is sorted and a permutation |
| SortStability.SortTurnsTies | internal/server/semantic_tokens.go:198-207 | for every input, the order the ties of an entry come out in: each smaller entry behind k of them turns these k by one |
| SortStability.OrderKeptIff | internal/server/semantic_tokens.go:198-207 | different ties of an entry keep their order if and only if, for each k from 2 on, k divides the number of smaller entries behind the first k and before the next |
| SortStability.StableIff | internal/server/semantic_tokens.go:198-207 | the exact condition of stability: a list whose ties differ is sorted stably if and only if that holds around every entry |
| SortStability.ComesBackKeepsTies | internal/server/semantic_tokens.go:198-207 | the condition suffices also where ties are equal |
| SortStability.CalmInputIsSortedStably | internal/server/semantic_tokens.go:198-207 | as a corollary, ties keep their order if no smaller entry follows two tied ones, so in particular if no two entries tie |
| SortStability.SmallerBehindTiesReverses | internal/server/semantic_tokens.go:198-207 | not stable: two tied entries before a smaller one come out reversed |
| SortStability.TwoSmallerRestore | internal/server/semantic_tokens.go:198-207 | two smaller entries behind put the two tied ones back in order, although a smaller entry follows them |
| TokenWire.EncodeDeltas | internal/server/semantic_tokens.go:209-230 | the loop computes the relative stream |
| TokenWire.UndeltaInverts | internal/server/semantic_tokens.go:209-230 | decoding the stream of sorted entries gives back the entries |
| TokenWire.EncodeSemanticTokens | internal/server/semantic_tokens.go:50-230 | the stream encodes a sorted permutation of the split entries, and for tokens with lines from 1 on, in order, a client decoding it gets exactly those |
| TokenWire.StreamDecodes | internal/server/semantic_tokens.go:50-230 | for tokens whose lines count from 1, are in order and fit the wire, whatever their columns, decoding gives back exactly those entries, with no delta wrapped |
| TokenMerge.SortByStartSorts | internal/analysis/natural/semantictokens.go:822-828 | the stable sort orders by start and keeps the order of ties |
| TokenMerge.PickIsFirstHighest | internal/analysis/natural/semantictokens.go:830-878 | of the tokens at one start the first of the highest precedence stands, with the modifiers of all of that precedence |
| TokenMerge.BuildTokenMap | internal/analysis/natural/semantictokens.go:847-878 | the map holds the picked token of every start |
| TokenMerge.Reconstruct | internal/analysis/natural/semantictokens.go:880-918 | over sorted tokens the output is the merge |
| TokenMerge.MergeTokens | internal/analysis/natural/semantictokens.go:816-918 | the output is the merge of the given tokens |
| TokenMerge.MergedTokenMeaning | internal/analysis/natural/semantictokens.go:816-918 | each token sent is the first highest of its start, with the union of modifiers, and no two share a start |
| TokenMerge.MergedKind | internal/analysis/natural/semantictokens.go:830-878 | which kind wins a start: a function before a type, a property, a parameter or variable, and what the lexer alone says |
| TokenMerge.FirstOfEqualsWins | internal/analysis/natural/semantictokens.go:861-873 | among a parameter and variables of one start the first keeps its kind and takes the modifiers of all |
| TokenMerge.StartIsDroppedIff | internal/analysis/natural/semantictokens.go:880-918 | a start is left out exactly if its operator ends right before a readonly variable |
| TokenMerge.MergeIsUnique | internal/analysis/natural/semantictokens.go:816-918 | the description leaves one output |

## Left out

- JSON-RPC framing, progress, logging, the request switch, file watching and timers: plumbing without state of its own.
- Hover, code lens, signature help and document links: text rendering.
- The extractors that turn syntax nodes into model entries, and the phase classifiers before the merge: thin mappings.
- `findFieldInDefinitions` and the other definition searches of field_resolution.go: recursive searches with easy claims.
- JSON, gzip and SHA-256: the codec is the identity on cached fields and the hash is injective.
- The skip records and line-width tables inside `Index`, and `ensureLineWidths`: the table itself is in `LineWidths`.
- Cancelled builds, analyzer errors and recovered panics: a step of `IndexCache` is a completed build with a total analyzer; after a failure the source indexes the file as of unknown type.
- The declaration site, the sorting and URI conversion of locations, and the name matching of DDM data access in `referenceSites`: `References` models the edge sites.
- Backslash cache keys: `NormalizeKey` is modelled, and `ReferencesInvertResolution` asks for keys it leaves distinct.
- Unicode case mapping and Unicode white space in names: ASCII only.
- The library sorts (`sort.Slice`, `sort.SliceStable`, `sort.Strings`) are specification functions, proved sorted, and stable where the source asks for it.
- The bitset of token modifiers in the merge is a set, its bitwise or a union.
- Integer widths other than the conversions to uint32 in positions and tokens, and the 64-bit range of `strconv.Atoi`.
- Documents outside the workspace root, and URIs: a document is its path.
- `Update` of the store checks and writes under two acquisitions of its lock; the dispatch loop is its only caller, so `PublishProtocol` and `DocumentStore` take it as one step.
- A handler that copied the published pair and reads it later without the lock: pair consistency is stated for a free lock only.
- Parser.TokenParser.ParseDataFields: returns the fields in order; what the parent stack makes of that order is `LevelForest.NestFields`.
- SortStability.StableIff: asks that tied entries differ, since an exchange of equal entries cannot be seen; `SortStability.SortTurnsTies` and `SortStability.ComesBackKeepsTies` do not ask it.
- Parser.TokenParser.ParseTypeSpec: the split of the text into type and dimensions is not modelled.
- References.ReferenceSites: edge sites only; DDM data-access sites and the declaration site are not in the result.
- Parser.TokenParser.Parse: where a node ends is bounded (behind its start, before the next node), not fixed; token conservation is not claimed, because restored lookaheads lose tokens.
- The wording of parser diagnostics: one constructor for each message.
- DDMReport.ExtractDDMDefinitions: the format, length, dimension and range columns of a row are a payload not modelled.
- Agreement.FieldResolverAgreesWithEdge: the fields found inside the data area are not modelled.
