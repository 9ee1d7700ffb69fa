# Verification of the Nobl9 language server's core

This project models the parts of the Nobl9 language server that decide what a user sees for a line of
a file, and proves properties of them:

- **The line parser and its path algebra.** A file is cut into documents, every line is classified by a
  small state machine, and every line gets a path by looking back for the nearest structural line that
  is not indented deeper. Documents that are root lists are cut once more, one object per element.
  Paths are generalised (the root index goes, other indices become `*`), matched against documented
  paths, used to compute the paths of sibling properties, and used for deprecation warnings. Snippets
  are indented to become list elements.
- **The path library.** A linked list of path nodes that is built at the end, printed, parsed, copied,
  and shortened in place while looking for a node of a YAML tree.
- **The document protocol.** One thread updates versioned files and pushes events into a bounded queue;
  one worker copies a file, diagnoses it, reads the version again and publishes. Diagnosing itself
  fans out over one goroutine per object.
- **The cache** in front of the platform's API.

Code that changes things step by step is modelled by methods and classes that do the same (line objects
are rewritten in place, path nodes are relinked, the file store's files are overwritten, the server
object goes through its states) and every such method is proved against a function of its inputs or of
the old state; the properties are then lemmas about those functions. The two concurrent protocols are
state machines whose steps are the atomic steps of the code; a run is any sequence of possible steps, so
a lemma about all runs is a lemma about all interleavings. `SyncServer` proves that an object built from
the in-place file store goes through exactly the states of that machine.

Conventions. Text is a sequence of one-byte characters, as if every file were ASCII. Integers are
unbounded, except where the code converts numbers (`strconv.Atoi`, `strconv.ParseInt`), whose 64-bit
limits are modelled. Error returns and run-time panics are results of the modelled operation. Parsing of
YAML by the goccy library, decoding, diagnosing an object, unquoting a double-quoted key, matching file
patterns and the clock are parameters or open types.

Where to start:

| file | content |
|---|---|
| `YamlLines`, `BlockStyle`, `ParserInversion`, `BlockScalars`, `Documents`, `FileInversion` | the two parser passes, a printer for document trees, the proof that parsing inverts printing, and which lines are block text |
| `KeyColons`, `TreeKeys`, `LineValues`, `HalfTyped` | which colon ends a key, names in quotes, the key and value a line holds, where half-typed lines stand |
| `SimpleObjects`, `ObjectNodes`, `RootLists`, `FileNodes`, `LineSearch`, `PrintedKind` | cutting root lists, object nodes, from a file's text to its nodes, looking lines up, the kind and version a document gets |
| `Snippets`, `SnippetPaths`, `SnippetWrapping`, `SnippetMeaning` | wrapping an object as a list element |
| `GeneralPaths`, `PathMatch`, `PathLookup` | generalised paths and matching |
| `ObjectRef`, `ReferencePaths`, `ReferenceResults`, `TreePaths`, `ReferenceLookup` | references between objects, from a printed line to the line its project stands on |
| `Deprecation`, `PrintedWarnings` | warnings, the text they select, and the keys of a tree they are for |
| `PathText`, `PathParse`, `PathRoundTrip`, `QuotedScan`, `PathMisread`, `PathErrors`, `PathWriting` | writing and reading paths, exactly which paths survive, what one step of reading accepts, and texts that are rejected or panic |
| `YamlWalk`, `YamlPath`, `FilterLaws`, `PathBuilding` | linked paths, the shortening search, and which node it finds |
| `FileStore`, `FileRuns`, `TakenFiles` | the file store, what any run of requests leaves in it, and which files are taken |
| `SyncProtocol`, `SyncSafety`, `SyncTexts`, `SyncSessions`, `SyncConvergence`, `SyncServer` | the document protocol: invariant, accepted requests, liveness, the server object |
| `SyncHistory`, `SyncReach`, `SyncVersions`, `SyncOrder` | exactly which publications can occur, when a version names the wrong text, and when versions go back |
| `SyncHang` | what a panic in a goroutine of the diagnosis does to the server |
| `DiagnoseFan` | the fan-out of diagnosing |
| `RepoCache`, `RepoRuns` | the cache, and what any sequence of cached calls answers |

Where the code and its own comments or evident intention differ, the model follows the code, and a lemma
shows the difference:

- A quoted key that contains an escaped quote is read correctly only as the last key of a path, although
  the comment above `FromString` shows one in the middle (`PathRoundTrip.DocumentedPathRejected`). The
  exact condition, for all paths, is `PathMisread.RoundTripExactly`; some of the others are not
  rejected but read as another path (`PathMisread.SilentlyMisread`).
- `FilterFile` never looks beyond the first document: with a body there the shortening search always
  ends in a node or an error, and without one the code loops or panics (`PathBuilding.FilterFile`).
- The key position of a `-key:` line without a blank after the dash is two characters off
  (`Deprecation.DashWithoutBlank`).
- A publication can carry a version that its diagnostics do not belong to: for an open file exactly when
  a version comes back in a later session of it (`SyncVersions.StaleExactly`, `ReopenShowsOldText`), and
  otherwise when the file is closed before the second read (`SyncVersions.UnseenExactly`,
  `CloseShowsOtherVersion`).
- Publications for an open file go back in version when the file does, after it was closed and opened
  again (`SyncOrder.BackwardExactly`, `LoweringGoesBack`).
- Block text behind a blank line, or indented by one column only, is read as structure
  (`BlockScalars.BlockTextExactly`, `BlankLineBreaksBlock`).
- A line behind `kind:` or `apiVersion:` that is indented deeper and no comment, blank lines with enough
  blanks included, makes the object lose its kind or version (`PrintedKind.InferredFromEntry`,
  `BlankLineHidesKind`).
- A goroutine of the diagnosis that panics leaves the collector waiting for ever
  (`DiagnoseFan.ReturnsExactlyWithoutPanics`). The server then publishes nothing more and blocks its
  handler after at most eleven more opens and changes (`SyncHang.HungForever`, `HandlerBlocks`).

The formatter for list elements would not keep an object that starts with a comment
(`SnippetWrapping.LeadingComment`); the server only hands it the texts of `snippets.json`, all of which
start with a key, so this is a limit of the function and not a behaviour of the server.

## Model

| member | source | states |
|---|---|---|
| YamlLines.GetIndentLevel | internal/yamlastsimple/parse.go:316-327 | the number of leading white-space characters: all of them are white space and the next one is not |
| YamlLines.GetColonIndex | internal/yamlastsimple/parse.go:329-361 | the loop over quote and key state finds the colon that the recursive definition of "first colon outside quotes, before any blank in the key" finds, never the first character |
| YamlLines.ClassifyLine | internal/yamlastsimple/parse.go:180-217 | a new line object with the type, value, indent, colon and key that the classification gives the text |
| YamlLines.ParseLine | internal/yamlastsimple/parse.go:156-217 | one turn of the first pass, with the block-scalar state after it |
| YamlLines.ParseDocumentLines | internal/yamlastsimple/parse.go:152-220 | one distinct new line object per line up to and including the first separator, each as the state machine over all lines before it says |
| YamlLines.FindPreviousLine | internal/yamlastsimple/parse.go:273-288 | the nearest earlier structural line that is not indented deeper, or none if there is none |
| YamlLines.PlaceListLine | internal/yamlastsimple/parse.go:229-244 | path and list index of a dash line: first element below a parent, next element after a sibling |
| YamlLines.PlaceKeyLine | internal/yamlastsimple/parse.go:246-261 | path and list index of another line: child of a parent, or next to a sibling |
| YamlLines.PlaceLine | internal/yamlastsimple/parse.go:222-268 | one turn of the second pass; only this line changes, and the structural lines so far grow by it |
| YamlLines.PostProcessPaths | internal/yamlastsimple/parse.go:222-271 | in place, every line gets the position that depends on the lines before it, keeps its text, and gets the generalised path |
| BlockStyle.KeyLine | internal/yamlastsimple/parse.go:203-216 | a printed key line is classified as a mapping with that key and indent, and opens a block scalar exactly if what comes behind its colon ends with a bar or a greater-than sign and blanks |
| BlockStyle.BlockScalarExactly | internal/yamlastsimple/parse.go:290-301 | a text opens a block scalar if and only if only blanks come behind some bar or greater-than sign in it |
| BlockStyle.MappingNodeExactly | internal/yamlastsimple/parse.go:303-314 | a line is taken for a key line if and only if it has a colon without a number sign in front of it |
| KeyColons.ColonExactly | internal/yamlastsimple/parse.go:329-361 | told without the states of the scan: it finds the first colon that stands outside quotes and behind something, if no blank outside quotes comes behind the start of the name before it; otherwise it finds none |
| KeyColons.QuotedKeyLine | internal/yamlastsimple/parse.go:203-216 | a name in quotes of one kind, whatever colons, blanks and other quotes it has, is read as one key; only a number sign in it would hide the colon |
| KeyColons.QuotedDashLine | internal/yamlastsimple/parse.go:190-202 | the same behind a dash, number signs included |
| KeyColons.QuotedScalarLine | internal/yamlastsimple/parse.go:190-202 | a list item in quotes, whatever colons and blanks it has, is one scalar |
| LineValues.WrittenValue | internal/yamlastsimple/parse.go:73-113 | a line printed as "key: value", with or without a dash, holds just this key and this value, whatever the value is |
| BlockStyle.DashLine | internal/yamlastsimple/parse.go:190-202 | a printed "- key:" line is list and mapping, two columns deeper, with that key |
| BlockStyle.ScalarLine | internal/yamlastsimple/parse.go:190-202 | a printed "- text" line in which the parser finds no key's colon (text in quotes or behind a blank may have one) is a list line without key |
| ParserInversion.ParserInvertsPrinter | internal/yamlastsimple/parse.go:152-288 | for every tree of mappings and sequences, or none, printed with any consistent indents, lists flush with or deeper than their key, comments, blank lines and continuation text without a key's colon outside block scalars, and block scalars of both styles whose lines are all indented at least two columns deeper than their key, each structural line gets exactly its type and its path in the tree, and no other line becomes structural |
| HalfTyped.HalfTypedPath | internal/yamlastsimple/parse.go:222-268 | in every printed document a blank, half-typed or block text line that is indented deeper than the nearest key line above that is not deeper gets that line's path; in the column of that key it gets the path of the mapping that the key is in; with no structural line above that is not deeper, the root |
| HalfTyped.HalfTypedKey | internal/yamlastsimple/parse.go:73-113 | the text of a half-typed line is its map key, and it has no value |
| BlockScalars.BlockTextExactly | internal/yamlastsimple/parse.go:156-178 | behind a line that opens a block scalar, all lines up to any point are read as its text if and only if each is indented at least two columns deeper than that line |
| BlockScalars.BlankEnds | internal/yamlastsimple/parse.go:168-178 | a blank line ends the block, and the next line is read as any other |
| BlockScalars.BlankLineBreaksBlock | internal/yamlastsimple/parse.go:168-178 | for all keys, texts and both styles: behind a blank line, block text that looks like a key line becomes an entry below the block's own key |
| Documents.ParseFile | internal/yamlastsimple/parse.go:133-150 | documents without gap or overlap over all lines of the file, none of them empty, each the parse of the lines from its offset on; the loop ends |
| FileInversion.DocumentInverts | internal/yamlastsimple/parse.go:133-271 | a printed document is read back line by line wherever it stands in a file |
| FileInversion.FileInverts | internal/yamlastsimple/parse.go:133-271 | a file of any number of printed documents with separators, documents without a tree included, is read back as exactly those documents, every line with its tree path and its generalised path |
| Documents.TilesBounds | internal/yamlastsimple/parse.go:133-144 | a document's offset is the end of the one before it |
| Documents.TilesFind | internal/yamlastsimple/parse.go:19-24 | every line number of the file lies in exactly one document |
| Documents.AllLinesAt | internal/yamlastsimple/parse.go:19-24 | line i of a document is line offset + i of the file |
| GeneralPaths.ReplaceListIndicesWithWildcards | internal/yamlastsimple/parse.go:379-398 | the one-pass rewrite equals the recursive definition |
| GeneralPaths.GeneralizePath | internal/yamlastsimple/parse.go:366-377 | the root index is dropped, other indices become wildcards, paths shorter than two characters stay |
| SimpleObjects.SplitListDocument | internal/files/simple_object.go:98-126 | succeeds exactly if every indexed path has its first closing bracket behind position 1; the pieces then cover the document's own line objects in order and start exactly where the root index changes |
| ObjectNodes.DocIsList | internal/files/simple_object.go:71-79 | true exactly if some list line has a root index |
| ObjectNodes.ParseSimpleObjectNode | internal/files/simple_object.go:81-96 | kind and version are the values at the last line whose path ends, after its first dot, in that name |
| ObjectNodes.InferTextLast | internal/files/simple_object.go:81-96 | the value inferred for a name is that of the last line whose path is this name behind its first dot, and empty if there is none |
| PrintedKind.InferredFromEntry | internal/files/simple_object.go:81-96 | in every printed mapping document the value inferred for the last root entry "name: value" of a name is that value if no line indented deeper, comments apart, stands between it and the next entry or the end, and empty otherwise |
| PrintedKind.BlankLineHidesKind | internal/files/simple_object.go:81-96 | an instance: a kind with a line of two blanks below it |
| ObjectNodes.DocumentNodes | internal/files/simple_object.go:48-66 | one node for the document, or numbered nodes for its pieces that cover it; fails exactly if the cut fails |
| ObjectNodes.ParseSimpleObjectFile | internal/files/simple_object.go:45-69 | it fails exactly if some document is a root list that cannot be cut; otherwise the nodes are, document by document, one plain node or numbered list elements that start where the root index changes, each with the kind and version of its own lines; together they cover the file's line objects in order, offsets included, and every mapping line object was read from the raw line at its place |
| ObjectNodes.LocateLine | internal/hover/handler.go:45-53 | the line under the cursor in the first node that has one |
| ObjectNodes.LocateLineExact | internal/hover/handler.go:45-53 | after parsing, every line number of the file is found in exactly one node and is that line of the file; every other number is found nowhere |
| ObjectNodes.SimpleObjectNode.FindLineByPath | internal/files/simple_object.go:31-43 | the first line with the path, looked up under the node's own root index where the path has none |
| RootLists.RootListRecognized | internal/files/simple_object.go:71-79 | a printed root list is recognised as one |
| RootLists.RootListCuts | internal/files/simple_object.go:98-126 | for a printed root list the cut succeeds, with one cut fewer than elements |
| RootLists.RootListNodes | internal/files/simple_object.go:45-126 | a printed root list becomes one non-empty node per element, and every indexed line of node k has root index k, the index the node's look-ups add |
| FileNodes.PlainDocRecognized | internal/files/simple_object.go:71-79 | a printed document that is not a list is not taken for one |
| FileNodes.ReadPrintedFile | internal/files/simple_object.go:45-126 | from text to objects: reading a file printed from any trees succeeds and yields, tree by tree, one plain node for a mapping and element k as node k, with everything in it under root index k, for a list |
| LineSearch.SearchNode | internal/completion/snippets.go:67-79 | the nearest line at or above that an arbitrary filter lets through, within one node |
| LineSearch.FindLine | internal/completion/snippets.go:62-86 | in a parsed file the search stays in the node that holds the line, for every filter, and finds nothing for numbers outside the file |
| LineSearch.FindPreviousContent | internal/completion/snippets.go:45 | in a parsed file, told of its text: the line found is the nearest one above the cursor in the same object that is not blank and does not start, behind white space, with a number sign, or is block text; there is none exactly if all are such |
| Snippets.FormatObjectToArrayElement | internal/completion/snippets.go:112-133 | the text whose lines LinesOfWrapped describes |
| Snippets.LinesOfWrapped | internal/completion/snippets.go:112-133 | behind "- ", the formatted text has exactly the object's non-empty lines, each two columns deeper, and keeps a final line break |
| SnippetPaths.DashedLine | internal/yamlastsimple/parse.go:190-216 | a mapping line at column 0 behind "- " becomes a list and mapping line with the same key, value and colon |
| SnippetPaths.IndentedLine | internal/yamlastsimple/parse.go:180-216 | any line behind two blanks is classified the same, two columns deeper |
| SnippetPaths.PlaceShift | internal/yamlastsimple/parse.go:222-268 | one look back in the wrapped object finds the moved position of the original look back, when lists are nested |
| SnippetPaths.PlaceUnnested | internal/yamlastsimple/parse.go:229-244 | and it does not when a dash stands in its parent's column |
| SnippetWrapping.WrappingKeepsPaths | internal/completion/snippets.go:112-133 | for every document without separators and block scalars whose first line is a mapping line in column 0: each line's path, list index and indent in the wrapped document is its own moved from the root into element 0, if and only if no list line stands in its parent's column |
| SnippetWrapping.LeadingComment | internal/completion/snippets.go:112-133 | a limit of the formatter, for inputs that the server does not give it: behind a leading comment without a key's colon the first key, whatever follows, loses its root; its path in the wrapped document is the bare key |
| SnippetMeaning.GeneralizeShift | internal/yamlastsimple/parse.go:366-377 | moving a path into root element 0 does not change its generalised path |
| SnippetMeaning.WrappingMovesLines | internal/completion/snippets.go:112-133 | the line objects of the wrapped document have the same generalised path, value, colon and list index |
| SnippetMeaning.WrappingKeepsMeaning | internal/files/simple_object.go:81-96 | kind and version inferred from the wrapped document are those of the object, if its lists are nested and its keys in column 0 have no dots |
| SnippetMeaning.InsertedObject | internal/completion/snippets.go:112-133 | the same, on the same conditions, for the inserted text itself |
| SnippetMeaning.TreesAreNested | internal/yamlastsimple/parse.go:222-271 | every printed object tree without block scalars that starts in column 0 meets both conditions |
| SnippetMeaning.WrappingKeepsTrees | internal/completion/snippets.go:112-133 | so wrapping such a tree keeps kind, version and all its lines |
| PathMatch.SplitPath | internal/yamlpath/match.go:36-69 | the filled array holds the pieces between separators, bracketed again where they close one; the index panic happens exactly if some piece is empty |
| PathMatch.SplitPanicsExactly | internal/yamlpath/match.go:36-69 | the panic happens exactly for a non-empty path that starts or ends with a separator or has two in a row |
| PathMatch.Match | internal/yamlpath/match.go:9-29 | the loop over the components gives what MatchesExactly and MatchPanicsExactly describe |
| PathLookup.MatchesExactly | internal/yamlpath/match.go:9-33 | a well-formed documented path matches another if and only if that one has as many parts and comes from it by putting any one part for each star and tilde and any subscript for each starred one |
| PathMatch.MatchPanicsExactly | internal/yamlpath/match.go:9-69 | matching panics if and only if the paths differ and one that is not empty starts or ends with a separator or has two in a row |
| PathLookup.SplitOfText | internal/yamlpath/match.go:36-69 | splitting a well-formed path yields its names and subscripts |
| PathLookup.SplitJoins | internal/yamlpath/match.go:36-69 | joining the components gives the path back |
| PathLookup.GeneralizeText | internal/yamlastsimple/parse.go:366-398 | the generalised path has the same names, the root subscript gone and the other subscripts wildcards |
| PathLookup.LookupSoundAndComplete | internal/yamlpath/match.go:9-33 | a documented path with wildcard subscripts matches a line's generalised path if and only if it matches the line's path without its root index; outside root lists that is the line's own path |
| PathLookup.GeneralPathMatchesOwn | internal/yamlpath/match.go:9-33 | a line's generalised path matches the line's own path if and only if the line is not in a root list |
| ObjectRef.BuildTable | internal/objectref/references.go:64-233 | for every kind and path the table has the last reference in the list for both |
| ObjectRef.FindsLast | internal/objectref/references.go:223-233 | the reference found for a kind and path is one for both and no later one in the list is; none is found only if there is none |
| ObjectRef.CalculateReferencedPath | internal/objectref/references.go:252-275 | the numbers in brackets fill the template; a path without brackets leaves it alone |
| ObjectRef.Get | internal/objectref/references.go:15-45 | the table's entry with its project and SLO paths computed from the line's path without its root index |
| ReferenceResults.FallbackIsReference | internal/objectref/references.go:57-62 | there is a fallback path exactly for the kinds that the table lets refer to their own project, and only for references other than that one |
| ReferencePaths.WildShaped | internal/yamlastsimple/parse.go:379-398 | generalising a path made of pieces and numbers keeps the pieces |
| ReferencePaths.FillInjective | internal/objectref/references.go:15-45 | equal generalised paths have equal pieces |
| ReferencePaths.WalkShaped | internal/objectref/references.go:252-271 | the walk over a path collects exactly its numbers in order |
| ReferencePaths.SprintfShaped | internal/objectref/references.go:271-274 | formatting a template with as many numbers as verbs leaves no argument missing or extra |
| ReferenceResults.TableFits | internal/objectref/references.go:64-221 | every template in the table takes as many numbers as its entry's path gives and has the same pieces up to the last subscript |
| ReferenceResults.ReferencesStayInElements | internal/objectref/references.go:15-45 | for every table entry and every line whose generalised path is the entry's, the project and SLO paths have the line's own index vector, generalise to their templates, and agree with the line up to the last subscript |
| ReferenceResults.FoundInSameElements | internal/files/simple_object.go:31-43 | looked up in a node of the line's own root element, such a path gets the line's root index |
| ReferenceResults.ReferenceOfLine | internal/objectref/references.go:15-24 | what is found for a kind and path is an entry of the table for both |
| TreePaths.TreeLinesHaveShape | internal/yamlastsimple/parse.go:222-268 | every structural line of a printed document has a path of the shape these results are about, its indices below two to the 63rd |
| ReferenceLookup.GetProjectNameFromRef | internal/completion/references_completion.go:201-219 | the value at the first line with the project path, failing that the value at the fallback path |
| ReferenceLookup.PrintedLineHeld | internal/files/simple_object.go:45-126 | the node that a printed line ends up in has the line's root index, or is plain and the line has none |
| ReferenceLookup.PrintedReferenceFound | internal/objectref/references.go:15-45 | end to end: for a line printed from a tree and an entry of the table for it, the computed project path is looked up, in the line's own node, as the path with the line's own indices, root index included |
| ReferenceLookup.ProjectOfLine | internal/completion/references_completion.go:201-219 | what Get and the look-up find for a line is the value at the first line of its node with the entry's project path under the line's own indices, failing that the project of the object itself where the referenced kind has projects |
| Deprecation.CheckDeprecated | internal/diagnostics/provider.go:766-788 | the warnings belong one to one, in order, to the hits |
| Deprecation.HitsExact | internal/diagnostics/provider.go:766-788 | the hits are all pairs of a deprecated path and a mapping line with that generalised path, each once and no others, path by path and line by line |
| PrintedWarnings.PrintedHits | internal/diagnostics/provider.go:766-788 | in every printed document the hits are for exactly the keys of the tree whose path in the tree, generalised, is deprecated |
| PrintedWarnings.MarksKey | internal/diagnostics/provider.go:766-788 | and the range of such a warning marks, in that key's own line, the last name of the key's path |
| Deprecation.KeyPosSelects | internal/yamlastsimple/parse.go:73-103 | on plain and "- " mapping lines the key position selects text whose trim is the key, a colon follows, and text before, key, colon, one character and value make up the raw line |
| Deprecation.MapKeyIsKey | internal/yamlastsimple/parse.go:105-113 | the reported map key is the line's key up to white space |
| Deprecation.DashWithoutBlank | internal/yamlastsimple/parse.go:85-93 | on a dash line without a blank the position is exactly two characters too far right |
| Deprecation.WarningSelectsKey | internal/messages/common.go:28-52 | wherever its document stands in the file, a warning's zero-based range lies on that line of the file and, for a plain key or one behind a dash and a blank, selects that line's key |
| PathParse.ParseQuotedKey | internal/yamlpath/parse.go:80-113 | the loop that takes escaping backslashes out of a copy and returns positions in that copy |
| PathParse.ParseDotKey | internal/yamlpath/parse.go:53-78 | a plain key up to the next dot or bracket, with the error cases |
| PathParse.ParsePathIndex | internal/yamlpath/parse.go:115-149 | a number below two to the 63rd in brackets; digits up to the end of the text run off it |
| PathParse.ParseStep | internal/yamlpath/parse.go:26-48 | one turn of the parser on the linked builder, panics on a missing root included |
| PathParse.FromString | internal/yamlpath/parse.go:20-51 | the linked path has exactly the segments that parsing the text yields; errors, panics and the rootless empty path are told apart |
| PathRoundTrip.QuotedStopOf | internal/yamlpath/parse.go:85-96 | reading an escaped name gives the name back and a text shorter by its quotes |
| PathRoundTrip.SegmentRead | internal/yamlpath/parse.go:26-48 | one written segment is read back wherever it stands; a quote inside quotes leaves the reader short by one per quote |
| PathRoundTrip.WrittenPathIsRead | internal/yamlpath/path.go:74-145 | every written path with plain or quoted selectors and 64-bit indices is read back as the same segments, as long as quotes inside quoted selectors occur in the last one only |
| PathRoundTrip.RejectedExactly | internal/yamlpath/parse.go:20-51 | for selectors with at most one quote each, the text is rejected if and only if a selector before the last has a quote inside quotes |
| PathMisread.RoundTripExactly | internal/yamlpath/parse.go:20-51 | for every path whatsoever: reading the written path gives the same segments if and only if every selector is plain or a quoted name without backslashes, every index is below two to the 63rd, and no selector before the last has a quote inside quotes |
| PathMisread.NoRestart | internal/yamlpath/parse.go:26-48 | no reading of a written path that yields the path starts over at a '$' behind the root |
| QuotedScan.StopUnescapes | internal/yamlpath/parse.go:85-96 | the loop that takes backslashes out of a copy computes the unescaped name and the place of the closing quote |
| QuotedScan.DotQuoteStops | internal/yamlpath/parse.go:85-96 | no quoted key reaches beyond a quote with a dot in front |
| PathMisread.SilentlyMisread | internal/yamlpath/parse.go:80-113 | a path of two selectors, the first with three quotes, that is read without an error as a path of three |
| PathErrors.UnclosedIndexPanics | internal/yamlpath/parse.go:115-149 | behind every path that is read in place, an index without its closing bracket panics |
| PathErrors.RootlessPanics | internal/yamlpath/parse.go:26-48 | a text that starts with a written segment and no root panics |
| PathErrors.PlainKeyExactly | internal/yamlpath/parse.go:53-78 | a plain key is read if and only if it is not empty and the text ends, or a dot or an opening bracket comes, before any root sign or closing bracket; it then is all up to there |
| PathErrors.QuotedKeyExactly | internal/yamlpath/parse.go:80-113 | without backslashes, a key in quotes is read if and only if there is a closing quote, the name is not empty, and no root sign or closing bracket comes next; it then is the text between the quotes |
| PathErrors.SubscriptExactly | internal/yamlpath/parse.go:115-149 | a subscript is read if and only if digits, then a closing bracket, follow and the number is below two to the 63rd; it panics exactly if there are digits up to the end of the text |
| PathErrors.UnreadableRejected | internal/yamlpath/parse.go:20-51 | behind every path that is read in place, whatever is none of these is an error of the whole text |
| PathWriting.WriteAndRead | internal/yamlpath/path.go:18-21 | String and then FromString on linked nodes: the same steps come back if and only if that condition holds |
| PathRoundTrip.DocumentedPathRejected | internal/yamlpath/parse.go:12-19 | the example of the parser's own comment is rejected |
| YamlWalk.WalkPrefix | internal/yamlpath/path.go:87-96 | a prefix finds a node exactly as far as every segment leads somewhere; longer ones end as the whole path does |
| YamlWalk.WalkFinds | internal/yamlpath/path.go:152-205 | a path finds a node if and only if every segment leads somewhere |
| YamlPath.ToText | internal/yamlpath/path.go:74-80 | the linked nodes are written as their segments |
| YamlPath.Path.String | internal/yamlpath/path.go:18-21 | a path is written as the text of its segments |
| YamlPath.RemoveChild | internal/yamlpath/path.go:102-111 | the linked list loses exactly its last node, unless it is the only one |
| YamlPath.CopyNode | internal/yamlpath/path.go:222-224 | new nodes of the same kinds, linked the same way |
| YamlPath.EnterMapping | internal/yamlpath/path.go:167-190 | the first entry with the key, an error if a key before it cannot be unquoted |
| YamlPath.Filter | internal/yamlpath/path.go:152-205 | walking the linked nodes finds what walking their segments finds |
| YamlPath.Path.FilterNode | internal/yamlpath/path.go:42-55 | the result is the node at the deepest prefix whose segments all lead somewhere and the path is cut to that prefix; firstMatch holds exactly if the whole path misses no key; an error comes exactly when the whole path fails; at most one attempt more than segments |
| FilterLaws.FilterBuilt | internal/yamlpath/path.go:152-275 | told of the tree itself: in a tree built around a node from the inside out, behind n items of a sequence or behind entries with other keys of a mapping, the path of these numbers and keys finds at once exactly that node for a last subscript and exactly that entry for a last key, quoted and unquoted keys included |
| FilterLaws.FilterMissing | internal/yamlpath/path.go:42-55 | with a key that the node does not have, and any segments behind it, the node's own place in the tree is found and the path is cut to it |
| FilterLaws.FilterUnfit | internal/yamlpath/path.go:42-55 | with a segment that does not fit the node, a key before it that cannot be unquoted included, it is an error and the path stays |
| PathBuilding.PathBuilder.Root | internal/yamlpath/builder.go:11-17 | a new builder for the bare root |
| PathBuilding.PathBuilder.Index | internal/yamlpath/builder.go:20-23 | the path grows by one subscript, everything before it stays |
| PathBuilding.PathBuilder.Child | internal/yamlpath/builder.go:26-29 | the path grows by one selector, everything before it stays |
| PathBuilding.PathBuilder.Copy | internal/yamlpath/builder.go:32-47 | a builder of the same path that shares no node |
| PathBuilding.PathBuilder.Build | internal/yamlpath/builder.go:50-52 | a path of the builder's segments that shares its nodes |
| PathBuilding.FilterTwice | internal/yamlpath/path.go:42-55 | filtering the same tree again with the shortened path finds the same node at once |
| PathBuilding.FilterBesideCopy | internal/yamlpath/builder.go:32-47 | a copy taken before keeps the whole path |
| YamlPath.FilterMaybe | internal/yamlpath/path.go:87-96 | one attempt, where the node may be missing: the bare root then yields no node and no error, and every other path asks the missing node for its type |
| YamlPath.Path.FilterNothing | internal/yamlpath/path.go:42-55 | without a node the first turn panics, or leaves the path exactly as it was, so that the loop never ends |
| PathBuilding.FilterFile | internal/yamlpath/path.go:25-36 | the result is decided by the first document alone: with a body there it is a node or an error; without one the code loops for ever on the bare root and panics on any other path |
| FileStore.ShouldSkipFile | internal/files/filesystem.go:103-129 | the loop over the patterns gives what TakenExactly and PatternsDecide describe |
| TakenFiles.TakenExactly | internal/files/filesystem.go:98-110 | without patterns a file is taken if and only if its text starts with the activating comment or has the start of a Nobl9 API version somewhere, and there is no error |
| TakenFiles.PrintedTaken | internal/files/filesystem.go:103-110 | a file printed from any trees, one of which has a root entry with a Nobl9 API version, in a root list or not, is always taken |
| FileStore.PatternsDecide | internal/files/filesystem.go:111-128 | with patterns a file is taken exactly if its path matches one before any fails, and it is an error exactly if the path is unknown or a pattern fails first |
| FileStore.File.Update | internal/files/file.go:43-67 | only a newer version counts; the whole new state, with the old objects left after an error |
| FileStore.File.UpdateSkipped | internal/files/file.go:69-76 | only a newer version counts; tree, objects and error stay |
| FileStore.File.Copy | internal/files/file.go:88-102 | a new file and new object nodes with the same contents |
| FileStore.FS.GetFile | internal/files/filesystem.go:31-39 | a fresh copy of what is stored, or none |
| FileStore.FS.OpenFile | internal/files/filesystem.go:61-73 | a known file is an error, a failing pattern stores nothing, otherwise a new file is updated and stored |
| FileStore.FS.UpdateFile | internal/files/filesystem.go:75-96 | only the named file changes, and only as its update says |
| FileStore.FS.CloseFile | internal/files/filesystem.go:48-59 | exactly that file is gone, or it was an error |
| FileStore.FS.ReadThenPerform | internal/files/filesystem.go:31-39 | a copy taken before any number of opens, changes and closes still holds what was stored then |
| FileRuns.RunCoherent | internal/files/file.go:43-78 | after every run an open file with a version from 0 on is skipped exactly if its content is to be skipped; otherwise tree and error are those of its content, and so are the objects unless there is an error |
| FileRuns.OpenedHolds | internal/files/filesystem.go:67-72 | a file holds what it was opened with exactly if the version is not negative (or names a blank file) |
| FileRuns.StepMonotone | internal/files/file.go:80-86 | while a file is open its version never decreases and a version names one state |
| FileRuns.RunCurrent | internal/files/filesystem.go:61-96 | over every run an open file with a version from 0 on holds the text of the first request with the highest version since it was opened |
| FileRuns.RunBlank | internal/files/filesystem.go:61-96 | an open file with a version below 0 is blank, was opened with one, and has seen nothing newer since |
| SyncSafety.ClientStep | internal/server/server.go:133-180 | a client message does nothing, or the store accepts it and its event is to be pushed |
| SyncSafety.RunKept | internal/server/server.go:133-212 | in every interleaving, for a file that is opened only above all versions it had before: no event runs ahead of it, and a copy in the worker's hands is a former or the present state of it |
| SyncTexts.LogAccepted | internal/server/server.go:133-180 | the store is what the accepted requests make of it |
| SyncTexts.LogFromMessages | internal/server/server.go:133-181 | every accepted request comes, with its text and version, from a client message of the run: opening a file of the server's language, changing it as a whole, closing it; in the same order |
| SyncSessions.AcceptedExactly | internal/files/filesystem.go:48-96 | told of the requests alone: all are accepted if and only if no open file is opened, no other one is changed or closed, and no pattern fails on an opened or changed file |
| SyncTexts.OnceIsFresh | internal/server/server.go:133-150 | a file that is opened once, with a version not negative, is opened only above all its earlier versions |
| SyncTexts.CoherentReport | internal/diagnostics/provider.go:62-66 | the diagnostics of a stored file depend on its text alone, stale objects notwithstanding: the error of a text that cannot be parsed, and otherwise what its tree and objects give |
| SyncConvergence.RestIsUpToDate | internal/server/server.go:183-212 | in every run without failures that has come to rest, whatever files were closed and opened again at whatever versions: the last publication for every open file that is not skipped and has a version from 0 on carries its version and the diagnostics of its text |
| SyncConvergence.ComesToRest | internal/server/server.go:183-187 | left alone after any run in which the worker does not hang, the system comes to rest, a full queue notwithstanding, and loses nothing |
| SyncConvergence.InternalWork | internal/server/server.go:183-212 | without client messages the number of steps is bounded by the work that is left |
| SyncConvergence.LeftAloneCatchesUp | internal/server/server.go:183-212 | left alone after any run without failures, the system comes to show every such file as it is |
| SyncHang.RestsExactly | internal/server/server.go:183-187 | left alone after a run, the system can come to rest if and only if its worker does not hang on the diagnostics of a goroutine that panicked |
| SyncHang.HungForever | internal/diagnostics/provider.go:86-89 | once it hangs, it does so in every continuation, and nothing more is published |
| SyncHang.HandlerBlocks | internal/server/server.go:133-181 | after the hang at most as many more opens and changes are accepted as the queue has room for and one, and exactly with the last of these nothing can happen any more |
| SyncHang.HangsExactly | internal/diagnostics/provider.go:68-91 | if any goroutine may panic, some run of accepted requests hangs if and only if they put a file into the store that is not skipped, parsed without an error and has an object |
| SyncOrder.PublicationsGoForward | internal/diagnostics/handler.go:56-63 | in every interleaving, failures included, publications for an open file do not go back in version if the store's version of that file never goes down, over closing and opening again |
| SyncOrder.FreshOpensRise | internal/server/server.go:133-150 | opening the file only above all its earlier versions keeps that condition |
| SyncOrder.BackwardExactly | internal/diagnostics/handler.go:56-63 | for a file that is never skipped and opened with versions from 0 on, some run of accepted requests publishes backward if and only if the store's version of it goes down |
| SyncOrder.LoweringGoesBack | internal/diagnostics/handler.go:56-63 | an instance: a file opened at 5, closed, and opened at 1 |
| SyncHistory.RunHistory | internal/server/server.go:183-212 | in every run, failures included, every publication belongs to a request, a later copy of the file, and a second read later still with the version it carries, before whose last request no more events were sent than the queue holds |
| SyncReach.Occurs | internal/server/server.go:183-212 | whatever satisfies this for accepted requests is published in some run |
| SyncVersions.PublicationsExactly | internal/server/server.go:183-212 | so for every sequence of accepted requests the publications of all its runs are exactly those |
| SyncVersions.StaleExactly | internal/diagnostics/handler.go:56-60 | some run publishes for an open file another state than the second read saw if and only if a version is sent and a change behind a close of the file gives it to another state than some unskipped one that the file had in between, with no more events between the two requests than the queue holds |
| SyncVersions.UnseenExactly | internal/diagnostics/handler.go:56-60 | some run publishes for a file that is gone a version other than its copy's if and only if the file is closed in time while it has another version than one that was sent |
| SyncVersions.PublishedVersionMatchesText | internal/diagnostics/handler.go:29-64 | in every interleaving, failures included, for versions from 0 on: if no change in a session has a version sent in an earlier session of that file, a publication whose second read found the file open, and every publication for a file that is never closed, has the diagnostics of the very text first sent with its version |
| SyncVersions.FreshOpensSuffice | internal/server/server.go:133-150 | opening the file only above all its earlier versions is one way to keep that condition |
| SyncVersions.ReusedVersionIsStale | internal/diagnostics/handler.go:56-60 | for every log: a version that takes effect with two texts in two sessions, close enough together, can be published with the old text |
| SyncVersions.ReopenShowsOldText | internal/diagnostics/handler.go:56-60 | an instance: a file reopened below its old version and changed up to it |
| SyncVersions.CloseShowsOtherVersion | internal/diagnostics/handler.go:56-60 | an instance: a file that is changed and closed, published under its first version |
| SyncServer.Server.DidOpen | internal/server/server.go:133-150 | on the in-place store: language check, refusal, acceptance and event as in the machine |
| SyncServer.Server.DidChange | internal/server/server.go:160-181 | the same for changes; anything but one change is ignored |
| SyncServer.Server.DidClose | internal/server/server.go:156-158 | the same for closing, without an event |
| SyncServer.Server.ReadSnapshot | internal/diagnostics/handler.go:29-38 | the first read takes a copy, or ends for a missing or skipped file |
| SyncServer.Server.ReadVersion | internal/diagnostics/handler.go:56-63 | the second read drops a changed file and publishes an unchanged or missing one |
| SyncServer.Server.Run | internal/server/server.go:49-59 | through any interleaving the server object has exactly the machine's states |
| DiagnoseFan.SendsNeverBlock | internal/diagnostics/provider.go:68-86 | in every interleaving, no send of a list blocks |
| DiagnoseFan.RunsEnd | internal/diagnostics/provider.go:68-91 | every run has at most three steps per worker and two more |
| DiagnoseFan.ReturnsExactlyWithoutPanics | internal/recovery/recovery.go:21-26 | a run at its end has returned if and only if no worker panicked; otherwise the collector is stuck |
| DiagnoseFan.ReturnsAllDiagnostics | internal/diagnostics/provider.go:86-91 | what is returned is a permutation of all workers' diagnostics, each worker's list in one piece |
| DiagnoseFan.PublishedOrderIsFixed | internal/diagnostics/handler.go:44-50 | sorted by any sort for the handler's comparison, two runs publish all diagnostics and at the same positions in the same order, by line and then by character |
| RepoCache.DataCache.Get | internal/nobl9repo/cache.go:28-44 | a hit exactly up to the expiry time, with the stored data |
| RepoCache.DataCache.Put | internal/nobl9repo/cache.go:46-53 | the entry is replaced and expires one retention period later |
| RepoCache.KeysCollideExactly | internal/nobl9repo/repo.go:56-173 | with colon-free kinds, keys are equal exactly for equal queries, or for objects of one kind whose names and projects read the same with a colon between them |
| RepoCache.KeysInjective | internal/nobl9repo/repo.go:56-173 | with colon-free kinds and names, keys are injective within and across the four operations |
| RepoCache.ColonsCollide | internal/nobl9repo/repo.go:84 | with a colon in a name two objects share a key |
| RepoCache.HitIsLatestOwnStore | internal/nobl9repo/cache.go:28-53 | in every history of stores with colon-free kinds and names a look-up hits exactly if the most recent store for the very same arguments is at most one retention period old, and returns that store's data, "not found" included |
| RepoCache.EntryFits | internal/nobl9repo/repo.go:56-194 | whatever the arguments, an entry under a query's key has the type of the query's operation |
| RepoRuns.RepliesExactly | internal/nobl9repo/repo.go:55-194 | in every sequence of the four operations with colon-free kinds and names, told without a cache: a call answers with the stored answer to an earlier call for the very same arguments if one is at most one retention period old, and its look-up misses, so that it asks the backend, exactly if there is none |
| RepoRuns.FoundExactly | internal/nobl9repo/repo.go:83-143 | a user is found if and only if the backend answers with this one user alone, and an object if and only if it comes first in the backend's answer |
| RepoRuns.Run | internal/nobl9repo/repo.go:55-194 | a repository object answers every sequence of calls so |
| RepoCache.Repo.GetAllNames | internal/nobl9repo/repo.go:55-81 | a hit answers without a store; a miss answers with the backend and stores it; a backend error stores nothing |
| RepoCache.Repo.GetObject | internal/nobl9repo/repo.go:83-113 | the same, with an empty answer stored as "not found" |
| RepoCache.Repo.GetUser | internal/nobl9repo/repo.go:126-143 | the same, with anything but one user stored as "not found" |
| RepoCache.Repo.GetRoles | internal/nobl9repo/repo.go:172-194 | the same for roles |

## Left out

- The goccy YAML lexer, parser and decoder, `internal/yamlast` and the validation of nobl9-go: foreign code; trees are a small datatype and parse results are parameters.
- Transport, JSON-RPC, the command line, logging, signals and version strings: plumbing around the modelled core.
- Diagnosing one object and the checks of references against the platform in `internal/diagnostics/provider.go`: foreign calls with flat branching; the protocol sees a report as an open function of a file.
- Hover templates, completion items and the contents of the snippets: presentation and data.
- Code actions: they read the objects of a file without looking at its error, so there is no claim about which objects they act on.
- Multi-byte characters: indents count characters while slices count bytes in the code, so the line parser is modelled on one-byte characters only.
- Printed files whose last document has no line: behind a final separator the parser starts no document, so a file has one such document less.
- Dash lines that are bare, have no blank or more than one blank after the dash, or hold another dash, in the inversion theorem: the parser itself gives them other positions; block scalars opened on a dash line are not tracked by the parser at all.
- Concurrent opening of one file by two handler threads: the check for a known file stands outside the lock; the model has one handler thread, as the server has.
- SyncVersions.PublishedVersionMatchesText: promises nothing for publications whose second read finds a closed file gone, because the code publishes those regardless; UnseenExactly says when they go wrong.
- SyncConvergence.RestIsUpToDate: promises nothing for files whose version is below 0; those are blank (RunBlank) and the events of their requests carry other versions.
- Which inputs make a goroutine of the diagnosis panic: foreign code; the machine lets any of them panic.
- SyncOrder.BackwardExactly: for files that are skipped now and then, PublicationsGoForward gives one direction only, because what is published and what the second read sees can then be of different versions.
- ParserInversion.ParserInvertsPrinter: block scalars with blank lines or lines indented by less than two columns are left out, because the parser reads them as structure; BlockTextExactly and BlankLineBreaksBlock say so exactly.
- HalfTyped.HalfTypedPath: says nothing of lines whose nearest structural line above is a dash line without a key.
- PrintedKind.InferredFromEntry: is about documents with a root mapping and values on the key's own line; the elements of a root list are not covered.
- SyncVersions.StaleExactly: says that a wrong publication occurs in some run of the requests, not which run the scheduler picks.
- ObjectRef.CalculateReferencedPath: models the verb `%d` only, the one that the templates have.
- LineSearch.FindLine: relies on the nodes covering the file, as the parser makes them.
- SnippetWrapping.WrappingKeepsPaths: objects that do not start with a mapping line in column 0 are outside the equivalence; LeadingComment shows what a leading comment does, leading blank lines and indented objects are not treated; the server's own snippets all start with a key.
- RepoRuns.RepliesExactly: calls come one after the other, under a clock that does not go back; two goroutines that miss at the same time may both store, in either order.
- Names and kinds with colons in `RepoRuns`: keys of two queries can then be equal, as `RepoCache.ColonsCollide` shows, so answers can be mixed up.
- DiagnoseFan.PublishedOrderIsFixed: says nothing about the order of diagnostics at the same position, which the unstable sort leaves open.
- Eviction: entries are never removed from the cache in the code, and the model says nothing about its size.
