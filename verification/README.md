# NookBridge: verified models of its codecs and protocols

NookBridge is a headless daemon for Notesnook. This project models the parts of it that are hardest to
get right and proves what they are for. `dafny verify dfyconfig.toml` checks everything.

* **Native HTML codec** (`src/core/note-document-native.ts`). A strict parser turns stored HTML into a
  tree that keeps source slices; a decoder reads blocks from the tree and keeps what it cannot represent
  as opaque regions; a serializer aligns an edited document with the original, echoes original bytes
  where it can and prints the rest canonically. Faults are traces: what a stretch of the decode defers,
  then what stops it. The parser: `NativeHtml`, `NativeHtmlTheory`, `NativeFaults`, `NativeSafety`,
  `NativeReferences`, `NativeLexing`, `NativeScan`. The decoder: `NativeDecode`, `NativeWalk`, `NativeText`,
  `NativeGrammar`. The serializer: `NativeSerialize`, `Alignment`, `NativeIdentity`, `NativeLoops`,
  `NativeEcho`, `NativeWritable`. The round trips: `NativeCanon`, `NativeInline`, `NativeBlocks`,
  `NativeRegions`, `NativeMerge`, `NativeRoundTrip`, `NativeConservation`.
* **Canonical Markdown codec** (`src/core/note-document-markdown.ts`). A printer and a recursive line
  parser that undo each other. Modules `Markdown`, `MarkdownEscape`, `MarkdownMarks`, `MarkdownJson`,
  `MarkdownLines`, `MarkdownBlocks`, `MarkdownRoundTrip`, `MarkdownDocument`, `MarkdownNote`, `MarkdownParser`.
* **Database gate** (`src/core/notesnook-database-mutex.ts`). A class with the gate's fields, and a world
  of arrivals and finishes around it. Module `Gate`.
* **Single-instance lock** (`src/config/lock.ts`). Names, inodes and open descriptors; one step for each
  system call; crashes and outside interference. Module `Lock`.
* **Live auth provider** (`src/auth/live-notesnook-auth-provider.ts`). A step machine in which
  awaits end steps and calls may come in between, from the logger too. Module `Auth`.
* **Two scanners.** Duplicate top-level JSON names (`src/config/service-config.ts`, module `JsonKeys`), and
  the decimal, group-file and output code over fixed buffers (`native/operator-peercred.c`, module
  `Peercred`).

`Text` and `NoteDocument` hold what the codecs share: characters and strings, and the document with its
validator. Loops over mutable state are methods and classes, each proved to do what a function says; the
laws are proved about the functions.

What the code does where a reader might expect otherwise:

* A literal backslash directly before a digit is lost in Markdown: the escaper leaves it alone
  (`src/core/note-document-markdown.ts:160`) and the reader takes it for an escape (line 260). The round
  trips hold exactly without it, and the serializer's final comparison refuses such documents
  (`MarkdownEscape.EscapeExact`, `MarkdownEscape.BackslashDigitLost`).
* List items that hold blocks cannot be read back from native HTML; the round trips hold exactly without
  them (`NativeRoundTrip.EditedIdentity`, `NativeRoundTrip.FreshIdentity`,
  `NativeRoundTrip.ContinuationLost`). Region conservation holds with them.
* The header comment of `logout` says that it invalidates at once; a logout while another is under way
  returns the earlier one and invalidates nothing (`src/auth/live-notesnook-auth-provider.ts:410`,
  `Auth.LogoutExact`, `Auth.SecondLogoutSpares`).
* A restore does not check its generation again after the helper that reads the user has returned
  (`src/auth/live-notesnook-auth-provider.ts:396-398`), so a cancel that comes during that return is
  followed by an active session of an earlier generation (`Auth.OvertakenExact`,
  `Auth.RestoreAfterCancel`). Login and refresh check once more.

## Model

| member | source | states |
|---|---|---|
| NativeHtmlTheory.ParserCharacterised | src/core/note-document-native.ts:702-857 | `parseHtml` accepts exactly the texts that are the source of a well-formed forest within 30,000 tokens and 64 open elements, and returns that forest: element and text slices tile the text, every `raw` is its element's own slice, children lie between `open` and `close` |
| NativeHtmlTheory.RunSound | src/core/note-document-native.ts:712-855 | from any point of the token loop that keeps its invariant, an accepted run ends in a well-formed forest whose source is the whole text |
| NativeHtmlTheory.RunComplete | src/core/note-document-native.ts:712-855 | every well-formed forest within the bounds is read back from its source without a fault |
| NativeHtmlTheory.RunsNode | src/core/note-document-native.ts:712-855 | reading one well-formed node that stands ahead appends exactly that node and moves past exactly its source |
| NativeHtmlTheory.SourcesInjective | src/core/note-document-native.ts:702-857 | two well-formed forests with the same source are the same forest, whatever their size |
| NativeSafety.ParseSafe | src/core/note-document-native.ts:746-849 | every accepted parse is safe, said in names of its own: no element has one of the 24 forbidden names, none has an active or fetching attribute or one that is not listed, every address is a web or mail address in which a browser repairs nothing, no link stands in a link, and every element stands where a browser leaves it |
| NativeSafety.HostileRefused | src/core/note-document-native.ts:746-842 | a note whose scan comes to a forbidden element, or to an active, fetching or badly linked attribute, is refused as hostile, whatever was deferred before |
| NativeSafety.AttrExact | src/core/note-document-native.ts:798-835 | an attribute is accepted exactly when it is safe, its name is new on its element, and a link or style holds no unknown reference |
| NativeSafety.PlaceExact | src/core/note-document-native.ts:748-792 | a known element is accepted exactly where a browser leaves it, outside links if it is one |
| NativeSafety.TextExact | src/core/note-document-native.ts:716-731 | text is accepted exactly when it is clean, and blank directly inside tables and lists |
| NativeReferences.ReferencesExact | src/core/note-document-native.ts:455-499 | text is read without doubt exactly when every ampersand in it begins a named or numbered reference from the list, and then as what its references stand for |
| NativeLexing.AttributeSpelt | src/core/note-document-native.ts:798-804 | an attribute with any white space around its parts and any of the three ways to quote its value is read with its name in small letters and its value without quotes |
| NativeLexing.TagEndSpelt | src/core/note-document-native.ts:797-842 | the end of a tag, with or without a slash, is found after any white space |
| NativeLexing.ClosingSpelt | src/core/note-document-native.ts:735-742 | a closing tag in any case, with white space before its end, is read with its name in small letters |
| NativeScan.ParseHtml | src/core/note-document-native.ts:702-857 | the imperative loop over position, stack and children, run inside a fault scan, throws or returns as the characterised parser does and reaches the same faults in the same order |
| NativeCanon.EntitiesEscape | src/core/note-document-native.ts:455-499 | decoding character references undoes escaping, for every text, and leaves nothing unsupported behind |
| NativeCanon.OpenRead | src/core/note-document-native.ts:726-800 | a printed opening tag is read back as its tag and its attributes without a fault |
| NativeFaults.FaultScan.Fail | src/core/note-document-native.ts:255-264 | `fail` inside a scan throws the first-reached fault of the worst class of all faults reached, the failing one included |
| NativeFaults.FaultScan.Defer | src/core/note-document-native.ts:265-269 | `defer` goes on exactly when a scan is under way and the reason is one that can be preserved, and remembers it |
| NativeFaults.FaultScan.Reach | src/core/note-document-native.ts:255-281 | a stretch of code that defers and then throws leaves the scan as its list of faults says |
| NativeFaults.FaultScan.Begin | src/core/note-document-native.ts:270-281 | a scan starts with no fault remembered |
| NativeFaults.FaultScan.End | src/core/note-document-native.ts:270-281 | a scan that ends restores the module variables |
| NativeWalk.CanonicalRuns | src/core/note-document-native.ts:917-935 | the loop over the runs defers a repeated mark at the run that has it, goes on, and returns the canonical runs |
| NativeWalk.ReadInlines | src/core/note-document-native.ts:936-976 | the loop over inline nodes, nested elements included, throws, signals preservation or returns as the specification says, and the scan reaches its faults in that order |
| NativeWalk.ReadTasks | src/core/note-document-native.ts:990-1017 | the loop over checklist items does the same for task forests of any depth |
| NativeWalk.ReadLeaf | src/core/note-document-native.ts:1266-1385 | so does the decoding of every block that holds no others |
| NativeWalk.ReadBlocks | src/core/note-document-native.ts:1201-1254 | the loop over block elements drives the one fault slot and the payloads element by element: it returns the specified blocks and records, adds exactly the sources of the regions preserved, in order, and reaches exactly the specified faults |
| NativeScan.DecodeBody | src/core/note-document-native.ts:1400-1423 | from the parsed nodes on, a decode throws the first worst fault reached so far or returns the decoded blocks, having reached exactly the specified faults |
| NativeScan.DecodeNote | src/core/note-document-native.ts:1387-1436 | the decode under its scan of deferred and thrown faults returns what the fault-trace specification of the decode says |
| NativeScan.WorstFault | src/core/note-document-native.ts:56-75 | a refusal is the first-reached fault of the worst class among all faults reached; it is classed uninterpretable exactly when nothing stopped the decode, and then every fault reached is of that class |
| NativeText.DecodeKeeps | src/core/note-document-native.ts:936-1385 | every accepted decode keeps the note: beside its blocks there is only blank text, a region names its element, a container holds what its element holds, and any other block is what its element says, with every character in the marks it stood in, every tick, title, language and cell, and without anything on the element that the block could not hold |
| NativeText.LeafJoined | src/core/note-document-native.ts:936-1385 | the runs, cells and code of such a block, joined in order, are the text of its element: every character with its marks, `br` as a newline, without blank text beside blocks |
| NativeGrammar.LeafExact | src/core/note-document-native.ts:1266-1385 | a block that holds no others is read exactly when its element is in the grammar, which is said in terms of the parsed nodes alone: bare labels, tables without sections and all other accepted forms included |
| NativeGrammar.ElementExact | src/core/note-document-native.ts:1201-1385 | an element is preserved as a region exactly when the grammar does not allow it or it holds an unknown reference |
| NativeGrammar.DecodeReads | src/core/note-document-native.ts:1201-1385 | so it is at every level of every accepted decode |
| NativeInline.CanonRunsCanonical | src/core/note-document-native.ts:909-935 | `canonicalRuns` always yields canonical runs, and changes no canonical ones |
| NativeInline.MarkedTextRead | src/core/note-document-native.ts:936-975 | text printed inside nested mark elements is read back as that text with those marks |
| NativeInline.InlinesRoundTrip | src/core/note-document-native.ts:1437-1462 | whatever runs are printed, the bytes are a well-formed forest and are read back as the runs in canonical form |
| NativeBlocks.LeafRead | src/core/note-document-native.ts:1266-1386 | every block that holds no blocks is printed as an element that may stand in any container and is decoded there as the block in canonical form |
| NativeRegions.PlainSwap | src/core/note-document-native.ts:702-857 | what may stand inside some block containers may stand inside any others |
| NativeRegions.DecodeSame | src/core/note-document-native.ts:1201-1386 | a decode under another binding or another first index differs in the tokens only |
| NativeRegions.DecodeTokens | src/core/note-document-native.ts:1201-1259 | the tokens of a decode are those of its regions' sources, in document order, numbered one by one |
| NativeRegions.DecodeSettled | src/core/note-document-native.ts:1201-1386 | what a decode reads is in canonical form already, and none of its list items holds blocks |
| NativeRegions.ErasedEqual | src/core/note-document-native.ts:1094-1128 | a document is determined by its opaque placeholders in order and by what is left when their tokens are erased |
| NativeMerge.PlanFits | src/core/note-document-native.ts:1143-1200 | every block is planned against an original it may use: an equal one to echo, or a container of the same kind to print inside |
| NativeMerge.EchoReprint | src/core/note-document-native.ts:1477-1480 | an echoed original decodes to the edited block again |
| NativeMerge.RegionReprint | src/core/note-document-native.ts:1515-1516 | the stored bytes of a region, printed where its reference stands, are preserved as that region again |
| NativeMerge.PlannedReprint | src/core/note-document-native.ts:1467-1520 | for any plan made of original records, the mixture of echoed bytes and canonical text is the source of nodes that decode to the edited blocks in canonical form |
| NativeMerge.BlocksReprint | src/core/note-document-native.ts:1467-1520 | the same for the plan that alignment makes, at every depth |
| NativeRoundTrip.ContextSound | src/core/note-document-native.ts:1387-1436 | the context of an accepted decode holds the stored bytes and, for every record and region, the very bytes it was decoded from |
| NativeRoundTrip.ForestParses | src/core/note-document-native.ts:702-857 | a well-formed source is parsed exactly when its forest is within the limits |
| NativeRoundTrip.EditedForest | src/core/note-document-native.ts:1571-1602 | the bytes written for an edited document without list-item continuations are a well-formed forest that holds its canonical form and the original's regions |
| NativeRoundTrip.EditedRoundTrip | src/core/note-document-native.ts:1571-1602 | edited round trip, for documents without list-item continuations: re-reading the bytes under any binding is accepted exactly within the size, token and depth bounds, and gives the edited document in canonical form but for token names, with the original regions in order and in the same container chains |
| NativeRoundTrip.EditedIdentity | src/core/note-document-native.ts:1571-1602 | under the same binding the edited document comes back exactly when no list item holds blocks and the written bytes and the canonical document are within bounds |
| NativeRoundTrip.FreshRoundTrip | src/core/note-document-native.ts:1437-1520 | a document written without a context holds no references, and is read back in canonical form exactly within the bounds |
| NativeRoundTrip.FreshIdentity | src/core/note-document-native.ts:1437-1520 | a document written without a context comes back exactly when no list item holds blocks and the written bytes and the canonical document are within bounds |
| NativeRoundTrip.ContinuationLost | src/core/note-document-native.ts:1488-1492 | an input that does not come back: a list with one item that holds a rule is written, and no reading of the bytes gives it back |
| NativeEcho.EditEchoed | src/core/note-document-native.ts:1473-1520 | an edit that changes nothing gives back the stored note; any other edit that is written consists of one piece for each block, and the piece for a block that the alignment pairs with an original is that original's source bytes; an unpaired container with regions has the opening tag of the original that holds the same regions, and the same is true of what is inside it; any other container has a tag of its own |
| NativeEcho.PlanSays | src/core/note-document-native.ts:1176-1199 | the plan echoes the partner of every paired block, and no other block, and opens an original only for a container with regions |
| NativeWritable.FreshWritten | src/core/note-document-native.ts:1571-1602 | without an original, only presentable documents without regions that HTML can say are written, and all of them are unless they come out too large |
| NativeWritable.EditWritten | src/core/note-document-native.ts:1571-1602 | an edit is written only with the binding and the references of its context, and is written then if HTML can say it and it does not come out too large |
| NativeConservation.RegionsConserved | src/core/note-document-native.ts:1571-1602 | region conservation, for every edit that is written, list-item continuations included: the written bytes lay the document out, and in them stand the original's regions, each once, in order, without overlap, with their own bytes, inside the chain of containers that the original's references name |
| NativeConservation.LayBlocks | src/core/note-document-native.ts:1467-1520 | whatever is echoed, looked up or printed, every block has its own stretch of the output, every container between an opening and a closing tag of its kind, and the regions' bytes are the stored ones |
| NativeConservation.LayNodes | src/core/note-document-native.ts:1201-1259 | the blocks and regions a decode reads have their own stretches of the source |
| NativeConservation.NoneInItems | src/core/note-document-native.ts:1094-1128 | where all references are in quotes and callouts, no list item holds a region |
| Alignment.PairsMatch | src/core/note-document-native.ts:1143-1176 | the exact pairs pair equal blocks and strictly increase on both sides |
| Alignment.PairsOptimal | src/core/note-document-native.ts:1143-1176 | when the trimmed middle is within the cell cap the pairs are as many as the longest common subsequence of the whole lists, and no matching has more |
| Alignment.SuffixBounds | src/core/note-document-native.ts:1156-1157 | trimming a common suffix costs a matching nothing |
| Alignment.CommonPrefix | src/core/note-document-native.ts:1154-1155 | the first trimming loop |
| Alignment.CommonSuffix | src/core/note-document-native.ts:1156-1157 | the second trimming loop |
| Alignment.FillTable | src/core/note-document-native.ts:1161-1168 | the table filled from its far corner holds the subsequence length of every pair of suffixes |
| Alignment.WalkTable | src/core/note-document-native.ts:1169-1174 | the walk through the filled table finds the pairs of the specification |
| Alignment.FindPairs | src/core/note-document-native.ts:1143-1176 | trimming, filling and walking together find the exact pairs |
| NativeLoops.PlanExact | src/core/note-document-native.ts:1177-1178 | the plan after the exact pairs are entered |
| NativeLoops.IdentifyAll | src/core/note-document-native.ts:1186-1198 | the whole ordinal loop over the plan, in place |
| NativeLoops.AlignBlocks | src/core/note-document-native.ts:1143-1200 | `align` as the source runs it computes the specified plan |
| NativeLoops.PlanOnce | src/core/note-document-native.ts:1143-1200 | over exact matches and identified containers together, each original is used at most once, and echoes come from their own record |
| NativeLoops.ReferenceWalk.Add | src/core/note-document-native.ts:1094-1128 | a reference is refused exactly when its token was seen before |
| NativeLoops.ReferenceWalk.Walk | src/core/note-document-native.ts:1094-1128 | the nested walk collects the references of the blocks under their container chain, in order |
| NativeLoops.FindReferences | src/core/note-document-native.ts:1094-1128 | `references` returns the references of a document exactly when no token comes up twice |
| NativeIdentity.UnderLink | src/core/note-document-native.ts:1094-1128 | the references below one container link are those of the one container that its key and ordinal name |
| NativeIdentity.SharedRegion | src/core/note-document-native.ts:1094-1128 | two blocks that hold the same region cannot be in one document with distinct tokens |
| NativeIdentity.NamedOriginal | src/core/note-document-native.ts:1179-1199 | when edit and original have the same references, the ordinal lookup for a container with regions finds an original with the same regions |
| NativeIdentity.NamedIsFree | src/core/note-document-native.ts:1179-1199 | the original so found is not used yet |
| NativeIdentity.RegionsIdentified | src/core/note-document-native.ts:1179-1199 | container identity: when the references of an edit are the context's, every container with regions is matched to the original with the same regions at every level, so the lookup, `holdsRegion` and `used` guards never reject one |
| MarkdownEscape.SyntaxUndone | src/core/note-document-markdown.ts:156-176 | reading undoes the pass that escapes syntax characters, intraword underscores and literal backslashes included |
| MarkdownEscape.EscapeRoundTrip | src/core/note-document-markdown.ts:177-181 | escaped text is read as one run without marks whose text is the original's but for backslashes directly before a digit |
| MarkdownEscape.EscapeExact | src/core/note-document-markdown.ts:228-332 | a text comes back as itself exactly when no backslash stands directly before a digit |
| MarkdownEscape.BackslashDigitLost | src/core/note-document-markdown.ts:256-264 | an input that does not come back: a backslash and the digit one are read as the digit alone |
| MarkdownParser.ReadInlines | src/core/note-document-markdown.ts:228-332 | `parseInlines` with its captured position, runs and text computes the specified reading |
| MarkdownParser.InlineReader.ReadSequence | src/core/note-document-markdown.ts:240-328 | the loop of `sequence` on the shared position and runs |
| MarkdownMarks.EmphasisReads | src/core/note-document-markdown.ts:194-227 | text in bold, italics, underlined or struck out is printed between its delimiters and read back with its mark, unless it ends with a backslash |
| MarkdownMarks.LinkReads | src/core/note-document-markdown.ts:194-227 | so is text in a link that the URL check lets through |
| MarkdownMarks.CodeReads | src/core/note-document-markdown.ts:187-193 | inline code is read back as it is, whatever runs of backticks it holds inside |
| MarkdownLines.EscapeSplits | src/core/note-document-markdown.ts:177-181 | escaping goes line by line |
| MarkdownLines.EscapedLine | src/core/note-document-markdown.ts:177-181 | an escaped line that is not empty and starts with no white space is read as part of a paragraph and as no other block |
| MarkdownRoundTrip.FenceUnlike | src/core/note-document-markdown.ts:182-186 | no line of a code text is its fence, whatever runs of backticks it holds |
| MarkdownRoundTrip.CodeReads | src/core/note-document-markdown.ts:545-552 | printed code is read back as its text and language |
| MarkdownRoundTrip.TasksReads | src/core/note-document-markdown.ts:595-611 | a forest of tasks of any shape within the caps is read back from its indented lines |
| MarkdownRoundTrip.QuoteFound | src/core/note-document-markdown.ts:572-577 | the prefixed lines of a quote are found whole, and without their prefix they are the lines inside |
| MarkdownRoundTrip.FlatReads | src/core/note-document-markdown.ts:334-437 | every simple block that holds no blocks is read back, with the parser standing after its lines |
| MarkdownRoundTrip.ContainerReads | src/core/note-document-markdown.ts:334-437 | quotes and callouts nested up to the depth cap are read back |
| MarkdownRoundTrip.BlocksReads | src/core/note-document-markdown.ts:443-468 | a list of simple blocks, with the lines between them, is read back and counted |
| MarkdownJson.TableExact | src/core/note-document-markdown.ts:334-437 | a table body is read exactly from its canonical JSON text and from no other |
| MarkdownDocument.DocumentReads | src/core/note-document-markdown.ts:634-652 | a simple document that can be emitted is decoded to itself without the backslashes directly before a digit, or refused for what the validator says of that |
| MarkdownDocument.MarkdownRoundTrips | src/core/note-document-markdown.ts:634-652 | the block round trip: a valid simple document is decoded to itself exactly when no text holds a backslash directly before a digit |
| MarkdownDocument.SimplePrints | src/core/note-document-markdown.ts:334-437 | every simple document whose code and regions have names the grammar knows is printed, unless a block or the whole comes out too large |
| MarkdownNote.WrittenIsRead | src/core/note-document-markdown.ts:653-675 | whatever the serializer writes, marked runs included, the parser reads under the document's own references, with the same meaning, and the serializer writes it again |
| MarkdownNote.ParseExact | src/core/note-document-markdown.ts:653-669 | a text is accepted for a document exactly when it decodes to it, is what the codec writes for it, and its opaque blocks stand at the same places with the same type and token as those of the safe preimage, none without one, and no token twice; otherwise what is wrong with the opaque blocks is what is reported |
| MarkdownNote.WrittenShows | src/core/note-document-markdown.ts:698-750 | a note that is written and read again has the same characters with the same marks in the same order |
| MarkdownNote.SimpleWritten | src/core/note-document-markdown.ts:737-748 | of the simple documents that can be emitted the serializer writes exactly those without a backslash directly before a digit; its final guard refuses the rest |
| MarkdownNote.SameRefs | src/core/note-document-markdown.ts:698-736 | normalization moves no opaque block |
| MarkdownParser.Parser.ParseBlocks | src/core/note-document-markdown.ts:443-468 | `blocks` on the position and count fields does what the specification of the reading says, errors included |
| MarkdownParser.Parser.ParseBlock | src/core/note-document-markdown.ts:469-594 | `block` |
| MarkdownParser.Parser.ParseDirective | src/core/note-document-markdown.ts:469-594 | the directives of `block` |
| MarkdownParser.Parser.ParseTasks | src/core/note-document-markdown.ts:595-611 | the loop of `tasks` |
| MarkdownParser.ParseLines | src/core/note-document-markdown.ts:640-652 | a new parser over the lines of a document |
| Gate.Mutex.Acquire | src/core/notesnook-database-mutex.ts:194-220 | the admission decided and the new state of the gate, for a free gate, a busy one and a full queue; each counter goes on to equal the queue's contents of its mode |
| Gate.Mutex.Release | src/core/notesnook-database-mutex.ts:237-253 | one holder fewer, then the front of the queue is let in as far as the gate admits it, in order; without such a holder nothing happens; each counter goes on to equal the queue's contents of its mode |
| Gate.NextKeeps | src/core/notesnook-database-mutex.ts:155-253 | every arrival, rejection, finish and throw keeps the invariant: an exclusive holder is alone, the waiters of each mode are within 64 and 192, requests are granted in the order accepted, and a non-empty queue has a head the gate does not admit |
| Gate.Reachable | src/core/notesnook-database-mutex.ts:155-253 | the invariant holds in every reachable state |
| Gate.BoundedWaiting | src/core/notesnook-database-mutex.ts:194-253 | a waiter is granted after at most as many finished holders as there are holders plus waiters ahead of it |
| Gate.GrantOrder | src/core/notesnook-database-mutex.ts:194-253 | grants happen exactly in the order of accepted arrivals |
| Gate.GrantsStay | src/core/notesnook-database-mutex.ts:194-253 | a grant is never taken back or moved |
| Gate.ExclusiveRefused | src/core/notesnook-database-mutex.ts:194-203 | an exclusive request is refused exactly when 64 exclusive ones are accepted and not granted yet |
| Gate.SharedTrafficHarmless | src/core/notesnook-database-mutex.ts:194-203 | no run of shared arrivals makes an exclusive request fail admission |
| Gate.ImmediateExact | src/core/notesnook-database-mutex.ts:194-218 | a request is let in at once exactly when nobody waits and every holder may hold the gate with it: shared ones with a shared one, nobody with an exclusive one |
| Gate.FinishExact | src/core/notesnook-database-mutex.ts:232-253 | a finish lets nobody in while another holder is left; the last holder's finish lets in exactly one exclusive waiter or all shared ones up to the next exclusive one |
| Lock.NextKeeps | src/config/lock.ts:52-363 | every file-system step of every process, every crash and every outside change to the lock path keeps the invariant of files, aside names, caches and capabilities |
| Lock.MutualExclusion | src/config/lock.ts:142-306 | under every interleaving and any crashes, if only this code touches the path, at most one acquisition of either kind is outstanding, and the path names its file |
| Lock.ForeignKept | src/config/lock.ts:52-97 | a file at the lock path still has a name after any steps in which neither its creator acts nor an outsider takes it from the path, any releases by others included, and also when an outsider puts another file at the vacated path |
| Lock.StaleRelease | src/config/lock.ts:186-203 | a release acts exactly when its own acquisition is outstanding, and changes nothing otherwise |
| Lock.EndedStays | src/config/lock.ts:337-363 | an acquisition that has ended never acts again, so a capability kept after a later acquire is dead |
| Lock.VerifiedStep | src/config/lock.ts:52-97 | only the inode check identifies a file, and what it identifies is the acquisition's own |
| Lock.ReleaseFrees | src/config/lock.ts:52-97 | while only this code touches the path, a release of an outstanding acquisition none of whose calls fails leaves its file without any name, whatever the other processes do and whichever die meanwhile |
| Lock.HandedOver | src/config/lock.ts:142-363 | in every state that this code alone can reach, the release of an outstanding acquisition by a quiet process can run to its end, and any quiet process with nothing else in its cache then acquires: its file is at the path |
| Auth.NextKeeps | src/auth/live-notesnook-auth-provider.ts:342-653 | every step of every interleaving of calls, awaits and re-entrant calls keeps the invariant |
| Auth.WaitsForPrevious | src/auth/live-notesnook-auth-provider.ts:440-456 | every operation captures as the end of the queue the operation admitted just before it |
| Auth.OneAtATime | src/auth/live-notesnook-auth-provider.ts:440-456 | queue bodies never overlap and run in admission order |
| Auth.CleanupAuthoritative | src/auth/live-notesnook-auth-provider.ts:489-594 | once a logout or cancel has ended without a cleanup error, remote failure included, the token is absent unless an operation queued later wrote it |
| Auth.ActiveIsCurrent | src/auth/live-notesnook-auth-provider.ts:382-400 | an active session belongs to an operation that ended with a session, and to the current generation except exactly when a restore that was overtaken after its last check has set it active |
| Auth.OvertakenExact | src/auth/live-notesnook-auth-provider.ts:382-400 | an operation overtaken by a logout or cancel can still end with a session, and set it active, exactly when it is a restore past its last check |
| Auth.RestoreAfterCancel | src/auth/live-notesnook-auth-provider.ts:382-400 | a run that meets the exception: the restore has made its last check, a cancel comes, and the restore ends with a session that is active |
| Auth.NoStaleSession | src/auth/live-notesnook-auth-provider.ts:458-467 | an operation overtaken by a logout or cancel before its last check never ends with a session, in any continuation, a logger that calls back included |
| Auth.Invalidates | src/auth/live-notesnook-auth-provider.ts:409-438 | a cancel, and a logout when none is under way, ends the active session at once and overtakes every operation that has not ended, all but a restore past its last check for good |
| Auth.LogoutExact | src/auth/live-notesnook-auth-provider.ts:409-422 | a logout invalidates exactly when no logout is under way or there is nothing to invalidate, and changes nothing otherwise |
| Auth.SecondLogoutSpares | src/auth/live-notesnook-auth-provider.ts:409-422 | a run in which a second logout does not invalidate: a login admitted while the first logout waits is not overtaken by the second, and ends with an active session |
| Auth.FailedLoginRollsBack | src/auth/live-notesnook-auth-provider.ts:545-554 | a login that has begun and ends with a failure in its own generation has awaited exactly one delete, and if that succeeded the token is absent |
| Auth.OvertakenDeletesNone | src/auth/live-notesnook-auth-provider.ts:673-684 | a login that is overtaken before it awaits a delete awaits none, in any continuation |
| Auth.SessionEarned | src/auth/live-notesnook-auth-provider.ts:577-653 | an operation that ended with a session found a token and a user; a refresh renewed the token; a login had its password accepted and, unless the first token asked for none, a code |
| Auth.RefreshAfterLogin | src/auth/live-notesnook-auth-provider.ts:342-377 | a run in which a login, asked for a code or not, and a refresh after it both end with a session |
| Auth.BlockedRefuses | src/auth/live-notesnook-auth-provider.ts:469-475 | after a cleanup that failed, no login or restore is admitted and no login or refresh begins until a logout or cancel is called, and the provider stays blocked through every other step |
| Auth.FailureBlocks | src/auth/live-notesnook-auth-provider.ts:513-521 | a cleanup that fails does block |
| Auth.RetriesBounded | src/auth/live-notesnook-auth-provider.ts:709-812 | in every run an operation submits at most as many codes and passwords as the limits say, and is answered at most a stated number of times in all, by the last of which it has ended |
| Auth.NeverStalls | src/auth/live-notesnook-auth-provider.ts:440-456 | as long as an operation has not ended, it or one admitted before it can start or has an await that can be answered |
| JsonKeys.SkipString | src/config/service-config.ts:740-757 | the inner loop finds the end of a string, escapes included |
| JsonKeys.HasDuplicateTopLevelKeys | src/config/service-config.ts:735-774 | the one-pass loop over index, depth and names seen computes the specified scan |
| JsonKeys.ScanValue | src/config/service-config.ts:735-774 | inside the object a whole value is skipped, whatever is nested in it |
| JsonKeys.NameParsed | src/config/service-config.ts:735-774 | the quoted slice that is compared decodes to the member's name |
| JsonKeys.ScanExact | src/config/service-config.ts:735-774 | for every JSON text whose value is an object the scan answers yes exactly when two top-level members have the same decoded name (sections 4 and 7 of RFC 8259) |
| Peercred.ParseUint | native/operator-peercred.c:134-145 | accepts exactly the non-empty digit strings whose value fits an unsigned long, and returns that value |
| Peercred.DecimalInverse | native/operator-peercred.c:119-145 | reading a printed number gives the number |
| Peercred.ValueInverse | native/operator-peercred.c:119-145 | printing a read number gives the digits, when they have no leading zero |
| Peercred.ProduceDigits | native/operator-peercred.c:119-127 | the digits of any unsigned long, last first, fit the local buffer |
| Peercred.AppendBytes | native/operator-peercred.c:108-113 | succeeds exactly when the bytes fit behind the length, for any length, writes only behind it, and nothing at all when they do not fit |
| Peercred.AppendChar | native/operator-peercred.c:115-117 | the same for one character |
| Peercred.AppendUint | native/operator-peercred.c:119-132 | succeeds exactly when the decimal text fits, and appends that text |
| Peercred.SafeGroupName | native/operator-peercred.c:94-106 | the accepted alphabet and length of a group name |
| Peercred.LineNames | native/operator-peercred.c:168-196 | whether one line is the line looked for, and where its name ends |
| Peercred.ResolveLocalGroupName | native/operator-peercred.c:168-196 | finds the name on the first qualifying line, by splitting at newlines and colons, copies it with a zero byte and reads nothing outside the buffers |
| Peercred.NamedSafe | native/operator-peercred.c:168-196 | a name that is found is always safe to print |
| Peercred.StringLength | native/operator-peercred.c:88-92 | the distance to the first zero byte |
| Peercred.AppendGroup | native/operator-peercred.c:209-219 | a space and the name of the group, or its number when no name is found |
| Peercred.AppendPeerGroups | native/operator-peercred.c:198-220 | succeeds exactly for 1 to 64 groups whose text fits, and appends that text |
| Peercred.AppendIdentity | native/operator-peercred.c:254-260 | user, group and process numbers with the spaces between them |
| Peercred.AssembleLine | native/operator-peercred.c:232-261 | the whole line is in the buffer, or the call fails, exactly when it does not fit |
| Peercred.LineTokens | native/operator-peercred.c:232-261 | whatever the group file holds, the line splits at spaces into the three numbers and one token a group, and the numbers are read back |

## Left out

Native HTML codec
- Strings are sequences of Unicode scalar values: lone surrogates, which both codecs refuse, and UTF-16 offsets are not modelled.
- The URL parser, the CSS declaration filter and the keyed digest of region tokens are parameters. The round trips require that the filter accepts the one style the serializer itself prints for a rule. Tokens need not be injective: a decode whose tokens repeat is refused, and the theorems say so.
- The region fingerprint is block equality in canonical form; digests and key derivation are left out.
- An element named `constructor` inside inline text meets a property of the JavaScript object prototype in the mark table; that accident is not modelled.
- Image, attachment and embed blocks are one kind of reference block, which the serializer refuses.
- The shape checks of hostile objects, the snapshot of them, `closedDocument` and the shape and writer option of the envelope take their inputs as plain data.
- The `payloads` map of a decode is kept as the sequence of region sources in the order of insertion; a token set twice, which the source would overwrite, is refused afterwards in both. `renderBlocks` is a function that recurses over the tree.
- The alignment table is a two-dimensional array of naturals, so the packing into one array of 32-bit cells is not modelled.

Markdown codec
- The round trips on blocks are about runs without marks. One mark around a text is read back (MarkdownMarks); nested marks, some of which collide by design, and text that ends with a backslash inside a mark are covered by the final guard only (MarkdownNote.WrittenIsRead).
- The budget of the snapshot on counts and sizes of hostile input.
- A control character inside table or title JSON is refused at once; when several faults meet, the source may find another one first.
- `inspectNoteDocumentMarkdownWithoutTaskTitles`, which only strips titles.

Gate, lock and auth provider
- The argument checks of `withMutex` and the promise plumbing around a body; a body that throws finishes like any other.
- The random part of an aside name is assumed not to be in use. File types, permissions and the text of the holder record's process fields are left out, and so is `isLocked`, which only looks.
- Password hashing is part of the await that submits the password. Error messages, diagnostics and the reading of envelopes are left out.
- Upstream writes of the token happen inside the awaited call only, the cleanup hook does not write it, and the clock does not call back.

Scanners
- JsonKeys.ScanExact: is about valid JSON texts, which is all the scanner is given after `JSON.parse` has accepted the text.
- Peercred.AssembleLine: the system calls around it, which read the group file and the socket and write the line, are parameters or left out.

The rest of the repository
- Command-line dispatch, prompts, wiring to the Notesnook core and SQLite, the offline auth provider and the coordinator, the version claim that rests on a YAML parser, and the one-way HTML renderer: they would add easy members or repeat an argument made here.
