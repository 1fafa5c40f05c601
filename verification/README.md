# Proofs about Stigmergy's core

Stigmergy files captured text into a wiki of Markdown pages, indexes the pages, and answers questions from
them. This project models the parts of it whose promises rest on invariants, and proves those promises for every
input, every run, and every behaviour of the language model.

| part | modules | source |
|---|---|---|
| cutting pages into fragments, and embedding them | `Text`, `LineCutter`, `LineReading`, `Windows`, `Sections`, `SectionReading`, `SectionMerging`, `Fragmenter`, `FragmentPlan`, `Embedding`, `PagePieces` | `index/fragments.py`, `index/build.py` |
| reading a committed tree | `TreeReader`, `TreeLaws` | `index/build.py` |
| the parser and printer of page bodies | `PageBodies`, `BodyRender`, `BodyParse`, `BodyRoundTrip`, `BodyWeight`, `BodyNormal`, `BodyEdges`, `BodyReadBack`, `BodyLost`, `BodyStable`, `BodyKeeps` | `kernel/layers.py` |
| layers: merging for the writer, splitting, fusing for readers | `LayerPages`, `LayerFacts`, `LayerSections`, `LayerSplit`, `LayerStored`, `LayerFuse`, `FusedOrder`, `LayerUnseen`, `LayerProject`, `LayerLeads`, `LayerEnds`, `LayerLosses`, `LayerMarks`, `LayerLoops` | `kernel/layers.py` |
| the leased work queue | `Queue`, `QueueRuns`, `TenantTurns`, `QueueStore`, `QueueLaws` | `capture/queue.py` |
| waking the writer | `Wake` | `kernel/wake.py` |
| merging and renaming entity pages | `SearchCost`, `NameBinding`, `EntityGraph`, `EntityPages`, `EntityFacts`, `EntityLinks`, `EntityBreaks` | `entities/service.py` |
| evidence objects and their deletion | `EvidenceLife`, `EvidenceStore`, `EvidenceLaws` | `capture/references.py`, `capture/uploads.py`, `capture/evidence.py` |
| the answer gate | `Figures`, `NumeralFacts`, `AnswerLedger`, `AnswerGate`, `AnswerFacts`, `AnswerService` | `answer/` |

A loop or a method of the source that changes state is a method here, proved equal to a function of its inputs or
of the old state; the theorems are lemmas about those functions. What an operation returns is also said without
them, of its input alone: `FragmentPlan`, `FusedOrder`, `QueueLaws`, `EntityLinks`, `EvidenceLaws`, `AnswerFacts` and
`TreeLaws`. Protocols are steps of a shared state, with runs
as sequences of events in any interleaving. What the source takes from libraries is a parameter: the SHA-256 of a
text, the key of a prose unit, case folding, the numeric tokens of a text, the embedding model's answers, and the
language model's drafts and tool calls. Where a proof needs a fact about a parameter, it is a named predicate in the
lemma's precondition (`Embedding.Injective`, `EntityGraph.Coarser`, `EntityFacts.Squashes`, `EntityLinks.TrimsSpace`,
`Figures.Lawful`, and, of the key and the link of
a unit's text, `LayerStored.EdgeBlind`, `LayerStored.Wordy`, `LayerUnseen.Wordier` and `LayerUnseen.Linked`). Text is
a sequence of characters, each of one to four bytes in UTF-8 (section 3 of RFC 3629). Each event of a queue run happens
at its own time.

## Where the code does other than its documentation says

Each of these is a theorem with the exact condition, or a concrete input.

- A long line is said to be cut inside a word only where an unbroken run is longer than the byte bound. It is also
  cut inside a shorter word when white space stands before that word at the start of a piece: `LineCutter.CutInsideWord`
  gives the exact condition and `LineCutter.CutInsideShortWord` a family of inputs.
- A text the model refuses is not remembered. When no request fails, a text is sent twice if and only if two large
  pages without a cached vector share it and the model refuses it (`Embedding.SentTwiceExactly`);
  `Embedding.TwinsSentTwice` gives two such pages.
- A body whose title is the mark alone, or with white space at the edges of its printed text, does not survive
  printing as it was: `BodyNormal.RoundTrip` is an equivalence, and `LayerLosses.BareMarkText` and
  `LayerLosses.TrailingSpaceText` give texts. What is printed of it can still be a normal form:
  `BodyStable.NormalForm` says when.
- What the split stores is stripped of white space at its edges, and so its first line can become a title, a heading,
  or the start of a callout, and a last item without text can be read as a line of the item before it.
  `LayerStored.StoredByKey` says exactly when it is read back with the units it holds, by their keys, and
  `LayerUnseen.FusedExactly` when a reader then misses a unit or is shown one too many. `LayerLosses.StrayTitleUnseen`,
  `LayerLosses.HeadingUnseen`, `LayerLosses.CalloutUnseen` and `LayerLosses.BareItemUnseen` give
  bodies.
- Two pages that each survive printing and share nothing need not project back from their writing view. The layer's
  units before any heading come back under the public page's last heading when the public page has none of its own
  (`LayerLeads.LeadMoves`), and the end of the merged text is stripped: the layer's last unit loses the white space
  after it (`LayerEnds.SpaceLost`), an item without text is lost whole (`LayerEnds.ItemLost`), and one of the public
  page's makes a unit of neither page (`LayerEnds.ItemGained`). `LayerProject.WritingViewProjects` is an equivalence
  with `LayerSplit.LeadStays` and `LayerProject.EndStays`, and `LayerProject.WritingViewProjectsByKey` one by the keys
  of units.
- A rewritten link keeps its shown text only if it had a label, or had no anchor and was written plainly:
  `EntityGraph.TextKept`, and a link in `EntityBreaks.AnchorNotShown`.
- After a merge or a rename a link that reached a page can reach none, even where moved stems belong to no other page:
  its `.md` suffix is not in lower case and the rewrite leaves it or takes it for another page's, the new stem is not
  read back off a link, or another page has that stem. `EntityFacts.MergeReaches` and `EntityFacts.RenameReaches` are
  equivalences, and `EntityBreaks` holds a wiki and a link for each case.
- Storing an object and naming it are two calls, and a release between them deletes an object nothing names yet. A run
  is safe if and only if each call finds what it names (`EvidenceLife.SafeExactly`); `EvidenceLife.PutThenRecordRaces`
  is a run in which the recording of an extraction does not.
- A numeral copied verbatim from the evidence is reported as unverified when it has no reading at all, which is
  when it has both marks and the one that stands last stands more than once (`Figures.CopiedFigure`,
  `Figures.ValueMissing`, and a numeral in `Figures.TwoGroupings`).

## Model

| member | source | states |
|---|---|---|
| LineCutter.FillIsMaximal | src/stigmergy/index/fragments.py:110-134 | the words a piece takes are as many as fit: none is left, the 100-word cap is met, or the next word would pass the byte bound |
| LineCutter.CutInsideWord | src/stigmergy/index/fragments.py:110-134 | a piece ends inside a word if and only if the first word from its start does not fit within the byte bound and its first character does |
| LineCutter.CutInsideLongWordOnly | src/stigmergy/index/fragments.py:110-134 | a piece that starts at a word ends inside a word if and only if that word alone is over the byte bound |
| LineCutter.CutInsideShortWord | src/stigmergy/index/fragments.py:110-134 | a word within the byte bound is cut whenever its first character fits behind the white space before it and the whole of it does not |
| LineCutter.PieceBounds | src/stigmergy/index/fragments.py:110-139 | every piece holds at most 100 words and 4000 bytes, and counts its words right |
| LineCutter.PieceIsFull | src/stigmergy/index/fragments.py:110-134 | a piece ends at the end of the line, at the 100-word cap, or where the next word would pass the byte bound |
| LineCutter.PiecesTile | src/stigmergy/index/fragments.py:110-134 | the pieces of a long line tile it exactly |
| LineCutter.ScanWithinReach | src/stigmergy/index/fragments.py:110-128 | a scan limited to 4001 characters takes the same words as an unlimited one |
| LineCutter.GapWithinReach | src/stigmergy/index/fragments.py:128-134 | the search for the next word, limited the same way, ends the piece where an unlimited one would |
| LineCutter.Pieces | src/stigmergy/index/fragments.py:110-134 | the cutter, with every scan limited, returns the pieces of the unlimited greedy cut |
| LineCutter.Lines | src/stigmergy/index/fragments.py:94-107 | the lines of a body, long ones cut |
| LineCutter.LinesTile | src/stigmergy/index/fragments.py:94-107 | the lines of a body, pieces included, tile it, each within a window's bounds |
| LineReading.LinesRead | src/stigmergy/index/fragments.py:94-134 | the lines of a body tile it, and each is a line of the text with the words it holds, or, only where that is too long for a window, a piece of it cut off only where the next word, or the white space before it, cannot be had |
| Windows.StopIsBest | src/stigmergy/index/fragments.py:204-244 | a window that ends before its section does ends after the last blank line at or past six tenths of the window's words if there is one, else where the next line no longer joins |
| Windows.NextAdvances | src/stigmergy/index/fragments.py:204-244 | each window ends strictly after the one before, carries over at most a quarter of its words and bytes, and at most 100 words |
| Windows.SectionWindowsSlide | src/stigmergy/index/fragments.py:204-244 | a section that fits is one window; of any other the windows cover it, each ends after its last paragraph boundary past six tenths or where no more fits, and opens with as much of the one before as the fifty words, the cap of a hundred, and the quarter in words and bytes allow, or with nothing where the next line would not fit beside that |
| Windows.LendsOnce | src/stigmergy/index/fragments.py:233-243 | how much of a window the next one opens with is determined by its words and bytes alone |
| Windows.Windows | src/stigmergy/index/fragments.py:204-244 | the sliding loop, its growing and back-off loops, return those windows and end |
| Sections.CutsAreMarks | src/stigmergy/index/fragments.py:142-167 | sections start exactly at the first line and at the headings that split, in order |
| Sections.SectionsPartition | src/stigmergy/index/fragments.py:142-167 | sections partition the lines of a body, each trail within its bound |
| Sections.FindSections | src/stigmergy/index/fragments.py:142-167 | the heading scan, with its fence flag and trail, finds those sections |
| SectionReading.HeadingReads | src/stigmergy/index/fragments.py:29-29 | however a heading line is written, its level and name are read off it |
| SectionReading.HeadingIsWritten | src/stigmergy/index/fragments.py:29-29 | and nothing else is a heading line |
| SectionReading.FenceIsWritten | src/stigmergy/index/fragments.py:31-31 | a fence line is at most three white space characters and three marks |
| SectionReading.SplitsExactly | src/stigmergy/index/fragments.py:142-162 | exactly the heading lines outside code fences start a section, of level two or three unless the page is a source |
| SectionReading.LineText | src/stigmergy/index/fragments.py:150-150 | a line is read without its line end |
| SectionReading.SectionsRead | src/stigmergy/index/fragments.py:142-167 | the sections of a body start at its first line and exactly at the lines that split, and the trail of each is the names of the headings in force there, outermost first |
| Sections.MergedPartition | src/stigmergy/index/fragments.py:170-197 | merging short sections keeps the partition and the bound on trails |
| Sections.Merge | src/stigmergy/index/fragments.py:170-188 | the merging loop with its pending section returns the merged sections |
| SectionMerging.MergedExactly | src/stigmergy/index/fragments.py:170-188 | exactly which sections are merged: from the first on each goes on to the first that makes it long enough, and a short end joins the last |
| SectionMerging.JoinedHolds | src/stigmergy/index/fragments.py:191-197 | a joined trail holds both trails, neither repeated |
| Fragmenter.FragmentBody | src/stigmergy/index/fragments.py:77-87 | all stages together return the fragments of a body |
| Fragmenter.FragmentsCover | src/stigmergy/index/fragments.py:77-244 | for every body the spans run from its start to its end, each next span starts after the last start and no later than the last end, ends after the last end, and every text is the exact slice |
| FragmentPlan.FragmentsPlanned | src/stigmergy/index/fragments.py:77-244 | exactly which fragments a body is cut into, said of its lines alone: itself if short; else window by window through its merged sections, each under its trail |
| Fragmenter.FragmentsReassemble | src/stigmergy/index/fragments.py:3-9 | the fragments less their overlaps concatenate to the body |
| Fragmenter.FragmentsTotal | src/stigmergy/index/fragments.py:204-244 | three times the bytes of all fragments is at most four times the bytes of the body |
| Fragmenter.EmbedTextFits | src/stigmergy/index/fragments.py:71-74 | a fragment with its title and trail is at most 8000 bytes |
| PagePieces.EmbedTextHolds | src/stigmergy/index/fragments.py:71-74 | an embedded text is the opening of the title, the trail if there is one, and the words |
| PagePieces.PiecesOfPage | src/stigmergy/index/fragments.py:266-275 | the pieces of one page: none of an empty one, an entity page whole unless it is cut, and of any other its fragments in order |
| PagePieces.PiecesInOrder | src/stigmergy/index/fragments.py:277-289 | the pieces of all pages are those of each, page after page |
| Embedding.MissingFacts | src/stigmergy/index/build.py:244-248 | the batch holds each text without a vector once, and only texts of the pages |
| Embedding.MissingCovers | src/stigmergy/index/build.py:244-248 | every page text has a vector or its hash is in the batch |
| Embedding.PieceFits | src/stigmergy/index/fragments.py:266-288 | only an uncut entity page can be over 8000 bytes |
| Embedding.BatchFits | src/stigmergy/index/build.py:223-250 | every text of the final batch is at most 8000 bytes |
| Embedding.SendLarge | src/stigmergy/index/build.py:232-243 | the requests sent are exactly the specified ones, up to the first that fails; exactly the pages refused are cut, and every other large page without a cached vector has one after |
| Embedding.RequestsOf | src/stigmergy/index/build.py:232-243 | when no request fails, a text is sent as often as large pages without a cached vector have it if the model refuses it, and otherwise once |
| Embedding.SentTwiceExactly | src/stigmergy/index/build.py:223-249 | over both rounds, a text is sent twice if and only if two such pages share it and the model refuses it; nothing with a cached vector is sent |
| Embedding.TwinsSentTwice | src/stigmergy/index/build.py:232-243 | two entity pages of one title and one large body, whose text is sent twice |
| Embedding.EmbedFragments | src/stigmergy/index/build.py:223-250 | every fragment's hash ends with a cached or fresh vector, the model's own; only refused entity pages are cut; it fails if and only if a request does, and its requests are the specified ones |
| TreeReader.ReadIsAcceptAll | src/stigmergy/index/build.py:115-157 | reading a stream is accepting in order the records between its zero bytes; a non-empty unended tail fails, over the limit if it is too long and as invalid otherwise |
| TreeReader.StreamSplits | src/stigmergy/index/build.py:115-117 | every stream is a run of zero-free records, each ended by a zero byte, and a zero-free tail |
| TreeReader.AcceptedWithinLimits | src/stigmergy/index/build.py:118-146 | an accepted run is within the entry, page, size, and total limits |
| TreeLaws.EntryReads | src/stigmergy/index/build.py:127-132 | the fields and the path of a record as it is written are read off it |
| TreeLaws.EntryIsWritten | src/stigmergy/index/build.py:127-132 | and nothing else is an entry |
| TreeLaws.AcceptsExactly | src/stigmergy/index/build.py:117-155 | exactly when records are accepted, and what is then returned: the page of every record that lists one, in order, with its path and text, and nothing else |
| TreeLaws.StreamExactly | src/stigmergy/index/build.py:111-159 | a stream is accepted if and only if it is good records each ended by a zero byte and within the limits |
| TreeReader.ReadRecords | src/stigmergy/index/build.py:113-154 | one chunk: every complete record is read and what is left has no end yet |
| TreeReader.ReadChunks | src/stigmergy/index/build.py:113-157 | for every way of cutting the stream into chunks the result is that of the whole stream |
| PageBodies.ParseBody | src/stigmergy/kernel/layers.py:143-204 | the parser's loops return the parse of the text |
| PageBodies.EatCallout | src/stigmergy/kernel/layers.py:175-184 | a callout with its end line becomes one unit, whatever stands inside |
| BodyParse.EatKeeps | src/stigmergy/kernel/layers.py:155-203 | after every line: all units but the one being read are well shaped and closed, and headings follow the lead |
| BodyParse.ParseSound | src/stigmergy/kernel/layers.py:143-204 | for every text, the parsed units are well shaped, only the very last can be left open, and only the first section can lack a heading |
| BodyKeeps.HeadingLine | src/stigmergy/kernel/layers.py:108-108 | exactly the heading lines |
| BodyKeeps.ItemLine | src/stigmergy/kernel/layers.py:109-109 | exactly the first lines of items |
| BodyKeeps.FenceLine | src/stigmergy/kernel/layers.py:166-183 | exactly the fence lines |
| BodyKeeps.ParseKeeps | src/stigmergy/kernel/layers.py:143-204 | for every text, the title, headings, and units say in order exactly what its lines say: nothing is lost but blank lines and white space at the ends of lines, and nothing made up |
| BodyWeight.ParseInventsNothing | src/stigmergy/kernel/layers.py:143-204 | titles, headings, and units together hold no more characters than the text parsed |
| BodyWeight.BodyTextWeight | src/stigmergy/kernel/layers.py:207-228 | a printed text holds exactly the characters of its title, headings, and units |
| BodyRoundTrip.RenderParses | src/stigmergy/kernel/layers.py:143-228 | a printable body of well-shaped units is read back, without its empty sections, its headless units joined to the section before them |
| BodyNormal.PrintsBack | src/stigmergy/kernel/layers.py:143-228 | and it is read back so if and only if it is printable |
| BodyNormal.RoundTrip | src/stigmergy/kernel/layers.py:143-228 | for every text, parsing the printed parse gives the same title, headings, kinds, and texts less empty sections, if and only if the title is more than the mark and the edges have no white space |
| BodyStable.NormalForm | src/stigmergy/kernel/layers.py:143-228 | whatever the title and the edges of the text, a parsed body printed, parsed, and printed again gives the same text if and only if its first paragraph, once stripped, is no title but one alone on its line, no heading but one right above its units, and no item right before another; unless it starts a stray callout |
| LayerLoops.RenderBody | src/stigmergy/kernel/layers.py:207-228 | the printer's loops return the printed text |
| LayerLoops.DedupeUnits | src/stigmergy/kernel/layers.py:308-324 | the loop over seen keys and targets returns the units kept |
| LayerLoops.CombineBodies | src/stigmergy/kernel/layers.py:276-305 | the loops over the order, headings, units, and direction dictionaries return the combined body |
| LayerLoops.SplitFromPublic | src/stigmergy/kernel/layers.py:250-261 | the loop over sections returns the stored text |
| LayerFacts.DedupeShows | src/stigmergy/kernel/layers.py:308-324 | every unit is shown by its key, or, for a Connections item, by one that links to the same page |
| LayerFacts.DedupeFrom | src/stigmergy/kernel/layers.py:308-324 | what is kept of a first part does not depend on what follows, and what is kept of the rest has new keys |
| LayerFacts.DedupeNew | src/stigmergy/kernel/layers.py:308-324 | units with new keys and new link targets are all kept |
| LayerFacts.ShownByKey | src/stigmergy/kernel/layers.py:308-324 | outside Connections, and there for all but items with a link, every unit is shown by its own key |
| LayerFacts.LinksOnce | src/stigmergy/kernel/layers.py:308-324 | no two Connections items shown link to the same page |
| LayerSections.GatherCombined | src/stigmergy/kernel/layers.py:276-305 | under each key a combined body has the first unit of each key of its parts, in their order or a reordering of it by date |
| LayerSections.CombinedKeyed | src/stigmergy/kernel/layers.py:276-297 | a combined body has one section for each key, in the order keys first appear |
| FusedOrder.CombinedOrder | src/stigmergy/kernel/layers.py:276-305 | every section of a combined page has the heading of the first section of its key and the first unit of each key; for a reader, if all are dated, in the order of their dates, those of one date as they came, newest first exactly when the dates of that section fall; and else as they came |
| FusedOrder.CombinedTitle | src/stigmergy/kernel/layers.py:276-277 | the title of a combined page is the first there is |
| FusedOrder.PartsAreParsed | src/stigmergy/kernel/layers.py:270-273 | every part is read, as its own layer's |
| LayerProject.MergedReadsBack | src/stigmergy/kernel/layers.py:207-247 | the merge of two pages that each survive printing is read back with its title and its sections, settled, its last unit stripped at the end |
| LayerProject.MergedUnits | src/stigmergy/kernel/layers.py:242-261 | under each key a merged page holds the public page's units, all known to it, and then the layer's, in order and none known to it |
| LayerProject.WritingViewProjects | src/stigmergy/kernel/layers.py:207-261 | for any two pages that each survive printing and share nothing, splitting their unedited writing view returns, section by section and in order, exactly the layer's units, if and only if its lead stays in front and the end stays: the last unit is the layer's without white space after it, or the public page's and known without it |
| LayerProject.WritingViewProjectsByKey | src/stigmergy/kernel/layers.py:207-261 | and it returns units of exactly their keys if and only if the lead stays in front and no last item is swallowed by the one before it, or only one of the public page's into a known unit |
| LayerLeads.LeadMoves | src/stigmergy/kernel/layers.py:242-261 | a public page and a layer page that each survive printing and share nothing, whose writing view does not project back because the layer's lead moves |
| LayerEnds.ItemLost | src/stigmergy/kernel/layers.py:207-261 | two such pages of which the layer's last item, printed last, is lost, by its key too |
| LayerEnds.SpaceLost | src/stigmergy/kernel/layers.py:207-261 | two such pages of which the layer's last unit comes back without the white space after it |
| LayerEnds.ItemGained | src/stigmergy/kernel/layers.py:207-261 | a public page and an empty layer page, of which the split returns a unit of neither |
| BodyReadBack.ReadBack | src/stigmergy/kernel/layers.py:143-228 | what any printed body is read back as: its last unit stripped at the end, then its first at the start and read as its first line now says, all else as it was |
| BodyLost.StrayTitleLost | src/stigmergy/kernel/layers.py:149-151 | a first line that looks like a title once stripped is read as the title |
| BodyLost.HeadingLost | src/stigmergy/kernel/layers.py:189-191 | one that looks like a heading is read as one, and no unit comes before it |
| BodyLost.CalloutLost | src/stigmergy/kernel/layers.py:172-182 | one that starts a callout takes in the lines up to an end line, fewer or more than its unit unless that is a whole callout |
| LayerStored.SplitReadsBack | src/stigmergy/kernel/layers.py:250-261 | what the split stores is read back exactly if and only if it is printable |
| LayerStored.StoredByKey | src/stigmergy/kernel/layers.py:250-261 | for every body and public page, what the split stores is read back with the same title and, under each heading and in order, the same unit keys, if and only if it reads on: a condition on its title, its last item, and its first line stripped |
| LayerStored.StoredIsBody | src/stigmergy/kernel/layers.py:250-261 | where it reads on it has the title of the body and, under each heading and in order, the keys of exactly the units the public page does not know |
| LayerStored.NothingStored | src/stigmergy/kernel/layers.py:250-261 | nothing is stored if and only if there is no such unit |
| LayerFuse.SortOrders | src/stigmergy/kernel/layers.py:298-304 | a dated section is put in date order, in the direction of its first page, and units of one date keep their order |
| LayerFuse.FusedShowsBoth | src/stigmergy/kernel/layers.py:250-324 | wherever the stored text reads on: under each heading a fused page shows, by key, every unit of the public page and every unit the layer adds, none twice, and marks as the layer's exactly the latter; items that share a link target show as one |
| LayerUnseen.FusedExactly | src/stigmergy/kernel/layers.py:250-324 | where what the layer adds has each key once under a heading, and its stored text starts no stray callout with an end, the fused page is so under every heading if and only if the stored text reads on |
| LayerFuse.KnownIsShown | src/stigmergy/kernel/layers.py:250-324 | whatever the body, a unit of it that the public page knows is shown under the public page's heading |
| LayerLosses.StrayTitleUnseen | src/stigmergy/kernel/layers.py:250-273 | a public page and a body of which a paragraph is stored first, read back as the title, and not seen |
| LayerLosses.HeadingUnseen | src/stigmergy/kernel/layers.py:250-273 | a body whose indented paragraph is read back as a heading, and not seen |
| LayerLosses.CalloutUnseen | src/stigmergy/kernel/layers.py:250-273 | a body whose indented paragraph is read back as the start of a callout that takes in the next, and not seen |
| LayerLosses.BareItemUnseen | src/stigmergy/kernel/layers.py:250-273 | a body whose last item has no text, and is not seen |
| LayerLosses.RepeatMakesUp | src/stigmergy/kernel/layers.py:250-273 | a body that repeats such a paragraph, and of which everything is seen all the same |
| LayerMarks.CalloutMakesUp | src/stigmergy/kernel/layers.py:250-324 | a body that repeats nothing and starts a stray callout with an end, of which every key is seen although the stored text does not read on |
| LayerLosses.BareMarkText | src/stigmergy/kernel/layers.py:143-228 | a text of a title mark alone is not read back as it was |
| LayerLosses.TrailingSpaceText | src/stigmergy/kernel/layers.py:143-228 | a line with white space at its end is not read back as it was |
| QueueRuns.StepKeeps | src/stigmergy/capture/queue.py:67-136 | every step of every client keeps the shape of rows, one lease for each processing item, and one item for each idempotency key |
| QueueRuns.ReachableTables | src/stigmergy/capture/queue.py:67-533 | in every reachable table queued means at most two attempts, processing one to three, a lease exactly while processing, a finish time exactly when terminal |
| QueueRuns.TokenNeverRevives | src/stigmergy/capture/queue.py:363-507 | a claim token once invalid is invalid for ever |
| QueueRuns.OneTokenAtATime | src/stigmergy/capture/queue.py:67-81 | an item has at most one valid token, and a lease stamp names at most one |
| QueueRuns.OnlyAClaimIssues | src/stigmergy/capture/queue.py:67-81 | only the claim that picks an item makes a token of it valid |
| QueueRuns.OnlyTheHolderUpdates | src/stigmergy/capture/queue.py:387-507 | an item is finished or failed if and only if the token is valid, and no other item changes |
| QueueRuns.AttemptsRepeat | src/stigmergy/capture/queue.py:490-507 | a run in which two tokens of one item have the same attempt number, so attempts alone do not fence |
| QueueRuns.AttemptsAreClaims | src/stigmergy/capture/queue.py:67-533 | attempts are the claims less the voluntary releases since the last administrator retry |
| QueueRuns.AtMostThreeClaims | src/stigmergy/capture/queue.py:339-487 | an item neither released nor retried by an administrator is claimed at most three times |
| QueueRuns.LandedForever | src/stigmergy/capture/queue.py:387-533 | a landed item never changes again |
| QueueRuns.RequestsKept | src/stigmergy/capture/queue.py:51-65 | items are never removed and what was asked never changes |
| QueueRuns.RepeatedRequest | src/stigmergy/capture/queue.py:165-246 | a repeated request is answered at every later time with the item it made, or refused if it asks for something else |
| QueueLaws.ClaimTakes | src/stigmergy/capture/queue.py:67-103 | a claim takes a due item no one has locked: of a tenant served longest ago, and within a tenant the oldest; it takes nothing only if there is none; and it changes just that item and its tenant |
| QueueLaws.ReleaseUndoesClaim | src/stigmergy/capture/queue.py:490-507 | a first claim given back leaves the item as it was, but due at once |
| QueueLaws.RetryStartsOver | src/stigmergy/capture/queue.py:510-533 | a failed item retried is as a new one with its request |
| QueueLaws.NewIsDue | src/stigmergy/capture/queue.py:165-206 | a new item may be claimed from then on |
| QueueLaws.ExpiryGivesBack | src/stigmergy/capture/queue.py:105-136 | exactly the leases that ran out are taken back, the item due at once, or failed after three attempts |
| QueueLaws.ExpiryInOrder | src/stigmergy/capture/queue.py:109-116 | they are taken back in the order the items were started, as many as the batch holds |
| QueueLaws.FailureGivesBack | src/stigmergy/capture/queue.py:436-487 | a failure that may be retried gives the item back for ten seconds later, with a new deadline only if asked; any other ends it |
| QueueLaws.RetryWaits | src/stigmergy/capture/queue.py:436-487 | in any run it is as the failure left it until a claim, which comes no sooner |
| QueueLaws.DeadlineStands | src/stigmergy/capture/queue.py:67-80 | in any run a deadline stands until a release, an administrator retry, or a failure that asks for a new one |
| TenantTurns.NoTenantTwice | src/stigmergy/capture/queue.py:85-103 | while a tenant waits with a claimable item, no other tenant is served twice |
| TenantTurns.WaitIsBounded | src/stigmergy/capture/queue.py:83-103 | its wait is bounded by the number of tenants: while it waits every claim serves somebody, and by the time there have been as many claims as tenants it has been served, however large their backlogs |
| QueueStore.Store.Enqueue | src/stigmergy/capture/queue.py:165-246 | the insert and the lookup after it are the enqueue step, with its answer |
| QueueStore.Store.ClaimNext | src/stigmergy/capture/queue.py:328-336 | the claim is the claim step, and hands over a valid token or nothing |
| QueueStore.Store.Pick | src/stigmergy/capture/queue.py:85-97 | the item picked is the first claimable one no other transaction has locked |
| QueueStore.Store.ReleaseExpired | src/stigmergy/capture/queue.py:339-360 | the first expired leases of a batch are requeued or failed, and counted |
| QueueStore.Store.HoldsLease | src/stigmergy/capture/queue.py:363-384 | the answer is whether the token is valid |
| QueueStore.Store.FinishLanded | src/stigmergy/capture/queue.py:387-433 | the item lands if and only if the token is valid |
| QueueStore.Store.FailOrRetry | src/stigmergy/capture/queue.py:436-487 | the item is requeued with a delay or failed if and only if the token is valid |
| QueueStore.Store.ReleaseClaim | src/stigmergy/capture/queue.py:490-507 | a claim handed back restores its attempt and budget |
| QueueStore.Store.RetryFailed | src/stigmergy/capture/queue.py:510-533 | exactly a failed item starts over |
| Wake.StepKeeps | src/stigmergy/kernel/wake.py:38-63 | at most one round thread runs, and a pending request implies one, after every step |
| Wake.NoRequestLost | src/stigmergy/kernel/wake.py:38-63 | in every interleaving, when the thread stops every request has been followed by a round that began after it |
| Wake.ThreadStops | src/stigmergy/kernel/wake.py:52-63 | without further requests the thread stops within four of its own steps |
| Wake.Waker.Writer | src/stigmergy/kernel/wake.py:38-49 | a call under the lock is the request step, and starts a thread exactly when none runs |
| Wake.Waker.NextRound | src/stigmergy/kernel/wake.py:52-58 | a look under the lock is the thread's step, and stops it exactly when nothing is requested |
| NameBinding.SequenceInside | src/stigmergy/entities/service.py:276-279 | whether either name stands inside the other |
| NameBinding.Search.Assign | src/stigmergy/entities/service.py:297-311 | the search finds a full choice only if there is one that extends the choices made, misses none while within its budget, visits no more states than the tree of choices has nodes, and hardly any past the budget |
| SearchCost.RisingIsSmallest | src/stigmergy/entities/service.py:294-294 | no order of the lists makes a smaller tree than fewest candidates first |
| NameBinding.SpentIsFair | src/stigmergy/entities/service.py:294-313 | so what is spent is at most the tree of choices in any order of the pages, and at most the budget, one, and the number of matches |
| NameBinding.OrderDoesNotMatter | src/stigmergy/entities/service.py:294-294 | whether pages can be bound does not depend on their order |
| NameBinding.ListSubjectBinds | src/stigmergy/entities/service.py:282-313 | true means one occurrence of a name of each page, disjoint, none nested, only "and" left over; false within 10000 states means there is no such choice; and where in some order of the pages the tree of choices has at most 10000 nodes, true means exactly that |
| NameBinding.PairSubjectBinds | src/stigmergy/entities/service.py:316-329 | true exactly when each side is a name of one of two pages and neither stands inside the other |
| EntityGraph.TextKept | src/stigmergy/entities/service.py:135-144 | when a rewritten link keeps its shown text; it always keeps its embed mark, its anchor, and a label it had |
| EntityGraph.RewriteLinkTwice | src/stigmergy/entities/service.py:129-144 | exactly when a link rewritten once more stays as it is |
| EntityGraph.RewriteTwice | src/stigmergy/entities/service.py:129-161 | where no new stem is rewritten to another, rewriting a wiki again changes nothing more |
| EntityFacts.MoveTwice | src/stigmergy/entities/service.py:60-161 | the rewrite of any merge or rename, done again, changes nothing more |
| EntityPages.Store.NameIndex | src/stigmergy/entities/service.py:43-49 | each key maps to exactly the pages that claim it |
| EntityPages.Store.FindEntity | src/stigmergy/entities/service.py:52-57 | a path, or the one page that claims a name |
| EntityFacts.NameFinds | src/stigmergy/entities/service.py:43-57 | where names are unique exactly the title and the aliases of a page find it |
| EntityPages.Store.RewriteLinks | src/stigmergy/entities/service.py:129-161 | every link of every page is rewritten, and nothing else |
| EntityPages.Store.MergeEntities | src/stigmergy/entities/service.py:60-96 | pages fold into the first, are removed, and links are rewritten; or nothing changes |
| EntityPages.Store.RenameEntity | src/stigmergy/entities/service.py:99-123 | the page moves to its new title and links are rewritten; or nothing changes |
| EntityFacts.DistinctInOrder | src/stigmergy/entities/service.py:70-70 | pages are merged in the order they are first listed |
| EntityLinks.MergePages | src/stigmergy/entities/service.py:60-161 | a merge leaves every page but the folded ones, changes nothing of it but its links, and the survivor's text and names; prose stays, and every link of every page that names a folded page names the survivor, with its embedding, anchor, and label |
| EntityLinks.MergedLinkReaches | src/stigmergy/entities/service.py:60-161 | for each link of each page after a merge: where it reached a page it reaches that page or its successor if and only if it is left good |
| EntityLinks.FoldKeepsText | src/stigmergy/entities/service.py:81-93 | the survivor holds its own text and that of every folded page under its heading, all but white space, and the sources of all |
| EntityLinks.FoldedLinkStands | src/stigmergy/entities/service.py:81-93 | every link of a folded page's text stands in the survivor's |
| EntityLinks.RenamePages | src/stigmergy/entities/service.py:99-161 | a rename leaves every page with its text, and every link of every page that names the page names its new stem |
| EntityLinks.RenamedLinkReaches | src/stigmergy/entities/service.py:99-161 | for each link of each page after a rename: where it reached a page it reaches that page or its new path if and only if it is left good |
| EntityFacts.MergeKeepsNames | src/stigmergy/entities/service.py:80-96 | every name of a folded page resolves to the survivor, every other as before |
| EntityFacts.MergeKeepsUnique | src/stigmergy/entities/service.py:60-96 | merging keeps names unique |
| EntityFacts.MergeReaches | src/stigmergy/entities/service.py:60-161 | a link that reached a page reaches it, or the page it was folded into, if and only if the rewrite leaves it and it reached no folded page, or changes it to a stem that is read back and the survivor's alone |
| EntityFacts.MergeKeepsLinks | src/stigmergy/entities/service.py:60-161 | when moved stems belong to no other page and the suffix is in lower case, that is: it need not be changed, or the survivor's stem is read back off a link and no page outside the merge has it |
| EntityFacts.RenameKeepsNames | src/stigmergy/entities/service.py:99-123 | every old name and the new one resolve to the renamed page, every other as before |
| EntityFacts.RenameKeepsUnique | src/stigmergy/entities/service.py:99-123 | renaming keeps names unique |
| EntityFacts.RenameReaches | src/stigmergy/entities/service.py:99-161 | a link that reached a page reaches it, or its new path, if and only if, for the page itself, it is changed to a stem that is read back and the page's alone, or need not be, and for another page the new stem is not that page's and the link is left |
| EntityFacts.RenameKeepsLinks | src/stigmergy/entities/service.py:99-161 | when no other page has the old or the new stem and the suffix is in lower case, that is: it need not be changed, or the new stem is read back off a link |
| EntityBreaks.SuffixBreaksMerge | src/stigmergy/entities/service.py:129-144 | a wiki whose merge leaves a link with an upper-case suffix behind |
| EntityBreaks.StemBreaksMerge | src/stigmergy/entities/service.py:129-144 | one whose survivor's stem is not read back off a link |
| EntityBreaks.NamesakeBreaksMerge | src/stigmergy/entities/service.py:60-96 | one in which another page has the survivor's stem |
| EntityBreaks.LookalikeBreaksMerge | src/stigmergy/entities/service.py:129-144 | one in which the rewrite takes a link to another page for one to a folded page |
| EntityBreaks.SuffixBreaksRename | src/stigmergy/entities/service.py:129-144 | the same four of a rename: the suffix |
| EntityBreaks.StemBreaksRename | src/stigmergy/entities/service.py:99-123 | the stem |
| EntityBreaks.NamesakeBreaksRename | src/stigmergy/entities/service.py:99-123 | the namesake, for links to the renamed page and to the other |
| EntityBreaks.LookalikeBreaksRename | src/stigmergy/entities/service.py:129-144 | the lookalike |
| EntityBreaks.AnchorNotShown | src/stigmergy/entities/service.py:135-144 | a rewritten link whose anchor is no longer shown |
| EvidenceLife.StepKeeps | src/stigmergy/capture/references.py:43-143 | a call keeps every protected object in the store if and only if every object it names is there when it is made |
| EvidenceLife.NothingNeededIsDeleted | src/stigmergy/capture/references.py:102-143 | in every interleaving of calls, as long as each finds what it names, each object named by a live row, a capture not landed, its extraction, or a patch is there with the bytes its name says |
| EvidenceLife.SafeExactly | src/stigmergy/capture/references.py:102-143 | a run keeps them all if and only if each of its calls finds what it names |
| EvidenceLife.StoredIsFound | src/stigmergy/capture/evidence.py:54-57 | what a call stores is found by every later call until one deletes |
| EvidenceLife.ReleaseAgain | src/stigmergy/capture/references.py:77-99 | a release repeated later hands back again every object still not needed |
| EvidenceLife.ReleaseTwice | src/stigmergy/capture/references.py:77-99 | a release repeated at once hands back the same objects |
| EvidenceLife.PutThenRecordRaces | src/stigmergy/capture/queue.py:320-325 | a run from the empty state in which a release comes between the storing and the recording of an extraction, which then names an object that is gone |
| EvidenceStore.Evidence.PutObject | src/stigmergy/capture/evidence.py:54-57 | an object is stored under its content key, once |
| EvidenceStore.Evidence.Delete | src/stigmergy/capture/evidence.py:77-78 | a deletion removes one key and says whether it was there |
| EvidenceStore.Evidence.RecordCapture | src/stigmergy/capture/references.py:43-74 | artifacts are recorded in order up to the first that conflicts |
| EvidenceStore.Evidence.ReleaseSources | src/stigmergy/capture/references.py:77-99 | rows are released and exactly the objects nothing needs are handed back |
| EvidenceStore.Evidence.CreateUpload | src/stigmergy/capture/uploads.py:49-123 | a new session, or the one its owner's key names if it declares the same artifact and is still good |
| EvidenceStore.Evidence.FinalizeUploads | src/stigmergy/capture/uploads.py:141-206 | all uploads are verified and stored if and only if they are the owner's, within the capture's limit together, and each verified or staged in time with the bytes it declares; or nothing changes |
| EvidenceStore.Evidence.ConsumeUploads | src/stigmergy/capture/uploads.py:209-231 | all are linked to a capture if and only if they are the owner's, verified, and linked to no other; or nothing changes |
| EvidenceStore.Evidence.PurgeExpired | src/stigmergy/capture/uploads.py:240-262 | expired sessions go, with their staged bytes and the objects nothing needs |
| EvidenceStore.Evidence.EnqueueVerified | src/stigmergy/capture/service.py:163-179 | a capture is queued if and only if each artifact is stored with the digest its name says and the size it declares |
| EvidenceLaws.ReleaseDeletes | src/stigmergy/capture/references.py:77-143 | a release takes the live mark off exactly the sources' rows, and deletes exactly the objects kept for them, originals and readable texts, that nothing needs any more |
| EvidenceLaws.PurgeDeletes | src/stigmergy/capture/uploads.py:240-262 | a purge takes exactly the expired sessions, their staged bytes, and the objects they declare that nothing needs |
| EvidenceLaws.CollectDeletes | src/stigmergy/capture/references.py:102-143 | a collection deletes exactly the objects given that nothing needs |
| EvidenceLaws.FinalizeStores | src/stigmergy/capture/uploads.py:141-206 | finalizing verifies exactly the sessions given, and stores exactly the objects they declare |
| EvidenceLaws.VerifiedHonestly | src/stigmergy/capture/uploads.py:168-192 | a session becomes verified only with the bytes it declares, staged in time |
| EvidenceLaws.WritesAre | src/stigmergy/capture/references.py:43-74 | every other call writes what it names and nothing else |
| EvidenceStore.BytesAppend | src/stigmergy/capture/uploads.py:166-167 | the bytes of a capture are summed session by session |
| Figures.ClaimIsInterpretation | src/stigmergy/answer/numbers.py:54-77 | what a token claims is one of the things it may mean |
| Figures.PoolGrows | src/stigmergy/answer/numbers.py:80-85 | later evidence only adds to the pool |
| Figures.UnverifiedIsUnbacked | src/stigmergy/answer/numbers.py:88-106 | nothing is reported if and only if every figure of the answer is backed |
| Figures.CopiedFigure | src/stigmergy/answer/numbers.py:68-106 | a figure copied from the evidence is backed if and only if it has a reading |
| Figures.ValueMissing | src/stigmergy/answer/numbers.py:28-51 | exactly which numerals have no reading |
| Figures.TwoGroupings | src/stigmergy/answer/numbers.py:28-106 | a numeral without one, which no evidence backs |
| Figures.UnverifiedFigures | src/stigmergy/answer/numbers.py:88-106 | the loop over the answer's tokens returns the unbacked displays, each once |
| NumeralFacts.WrittenReads | src/stigmergy/answer/numbers.py:28-51 | a number written in digits has its value |
| NumeralFacts.DecimalShifts | src/stigmergy/answer/numbers.py:28-51 | what stands after a decimal mark counts for as many places as it has digits |
| NumeralFacts.OneMark | src/stigmergy/answer/numbers.py:28-51 | one mark of either kind is a decimal mark, and before three digits may group thousands |
| NumeralFacts.ManyGroups | src/stigmergy/answer/numbers.py:28-51 | one mark more than once groups thousands |
| NumeralFacts.BothMarks | src/stigmergy/answer/numbers.py:28-51 | of both, the one that stands last is the decimal mark |
| NumeralFacts.WrittenClaims | src/stigmergy/answer/numbers.py:68-77 | what a whole number of an answer claims: its value times what its suffix says, as a percentage, or as it is |
| AnswerFacts.BackedExactly | src/stigmergy/answer/numbers.py:54-106 | a figure is backed if and only if the evidence holds the same figure, in the dimension it is written in |
| AnswerFacts.UnverifiedAre | src/stigmergy/answer/numbers.py:88-106 | exactly which figures are reported: those but bare single digits that the evidence does not hold, each once |
| AnswerLedger.RewindUndoes | src/stigmergy/answer/synthesize.py:123-138 | whatever was noted after a mark, rewinding restores the ledger |
| AnswerLedger.SynthesisContext.NotePage | src/stigmergy/answer/synthesize.py:102-107 | the ordered list and the membership set of pages stay the same |
| AnswerLedger.SynthesisContext.Rewind | src/stigmergy/answer/synthesize.py:127-138 | everything after the mark goes, from the membership set too |
| AnswerFacts.NotesKept | src/stigmergy/answer/synthesize.py:95-121 | exactly what a ledger holds after some notes |
| AnswerFacts.WindowsAre | src/stigmergy/answer/synthesize.py:113-116 | a page is read with exactly its windows that were read, in order |
| AnswerFacts.EvidenceIsJoined | src/stigmergy/answer/synthesize.py:99-100 | the evidence text is every tool result, line by line |
| AnswerFacts.QuotesAreJoined | src/stigmergy/answer/service.py:65-74 | the figures of every quote are judged |
| AnswerGate.ProblemsAreFaults | src/stigmergy/answer/verify_answer.py:113-154 | a draft has one problem for each citation that is not good, which it names, and one for a text without any; a citation is good if its page was surfaced and is there and its quote, which says something, stands in one of the two forms of the page as it was read |
| AnswerGate.LaterRank | src/stigmergy/answer/service.py:65-83 | a draft shown against later evidence ranks no worse |
| AnswerGate.NothingUnbackedShips | src/stigmergy/answer/service.py:234-417 | for every behaviour of the model a shipped answer has no figure in its text or quotes unbacked by this run; if clean it has only good citations and, unless its text is blank, at least one, and if partial exactly one fault |
| AnswerFacts.OnlySoundShips | src/stigmergy/answer/service.py:234-417 | the same said of the tokens of the answer and of the tool results; and an answer recovered after the budget ran out is clean |
| AnswerFacts.AnsweredExactly | src/stigmergy/answer/service.py:252-315 | exactly what is answered after a first draft: it, if it refuses or its figures hold and its citations have at most one fault; else the second if that would ship or refuses; else the first again, judged with the figures of its quotes against what was noted since |
| AnswerFacts.RecoveredExactly | src/stigmergy/answer/service.py:328-382 | exactly what is recovered when the budget is spent |
| AnswerFacts.GathersEnough | src/stigmergy/answer/service.py:337-349 | the recovery searches where nothing was surfaced and the question not tried, and reads the first three pages |
| AnswerFacts.AskRuns | src/stigmergy/answer/service.py:234-262 | a question starts with the search, unless it is cancelled, and the first run |
| AnswerGate.NoDraftBeatsTheAnswer | src/stigmergy/answer/service.py:264-315 | a retry runs only when the first draft would be suppressed, and the answer ranks no worse than either draft |
| AnswerService.CheckCitations | src/stigmergy/answer/verify_answer.py:113-140 | the loop with its cache of normalised pages finds the problems of each citation |
| AnswerService.VerifyDraft | src/stigmergy/answer/verify_answer.py:143-154 | figures and citation problems of a draft; none of a refusal |
| AnswerService.CompleteBudgetExhaustion | src/stigmergy/answer/service.py:328-382 | the recovery, with its mark and rewind |
| AnswerService.AskQuestion | src/stigmergy/answer/service.py:234-315 | the whole loop returns the answer the model describes and leaves its ledger |

## Left out

- Git, Postgres, S3, HTTP, and the web: each SQL statement is a guarded update of maps, its row locks the atomicity of the step.
- LayerUnseen.FusedExactly: where a body repeats a unit, the one that is left can make up for one lost (`LayerLosses.RepeatMakesUp`), and what comes after the end of a stray callout is parsed anew and can do so too (`LayerMarks.CalloutMakesUp`); there `LayerFuse.FusedShowsBoth` is one way, and `LayerStored.StoredByKey` remains exact.
- Embedding.SendLarge: the model's answer is a function of the text; one that refuses a text and later takes it is not modelled.
- Embedding.EmbedFragments: the same.
- EvidenceLife.NothingNeededIsDeleted: a call on uploads, a release, and a purge are one step each, under the row locks they hold.
- EntityFacts.MergeReaches: says nothing of links in source pages, which the rewrite does not touch, nor of links written inside code, and takes one layer at a time.
- EntityFacts.RenameReaches: the same; and a rename that is told not to rewrite links.
- LayerProject.WritingViewProjects: needs closed fences and callouts in both pages, since an open one swallows what is printed after it.
- LayerProject.WritingViewProjectsByKey: the same.
- EntityLinks.FoldKeepsText: the text of a folded page without its title is a parameter (`EntityGraph.Names.tail`), since splitting lines anew can change line ends.
- BodyStable.NormalForm: leaves out a text whose first paragraph, once stripped, starts a callout that is not just that paragraph; what comes after its end is parsed anew.
- EvidenceStore.Evidence.EnqueueVerified: does not state the lookup of a repeated capture nor the refusal for a closed layer, which `QueueStore.Store.Enqueue` states for a queue item, and verifies and inserts in one step.
- Fusing the metadata of rows (`fuse_rows`), the layer markers in fused text, and layer names and paths: short functions without a loop that carries state.
- PageBodies.ParseBody: digits other than ASCII do not number an item.
- The spelling of dates and link targets in units, which are parameters.
- EntityPages.Store.MergeEntities: takes the verdict on the merge evidence; the sentence patterns that give a subject to `NameBinding`, and the reading of sources, are not modelled.
- EntityPages.Store.RewriteLinks: the pages are those of the knowledge folders; one whose front matter is malformed, which the rewrite skips, is not modelled.
- White space trimmed from folded bodies (`EntityGraph.Names.trim`) is a parameter; page files' front matter is not modelled.
- The order in which an upload's head and bytes are read; the size and the digest are compared at once.
- Erasure of a layer or a workspace: its deletions are guarded by the same test and are the step `Collect`.
- The reasons composed for refusals, token usage, timeouts as time, and the search and page tools: a run's notes are arbitrary.
- The numeric token pattern itself: `Figures.Lawful` names the three facts used of it.
- A round thread that cannot be started, and what a round does.
- Refused request texts, error categories, and the listing queries of the queue.
- Entry counts of blobs read for the tree: the blob reader's own protocol is a parameter.
