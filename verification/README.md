# SemSource: a model of its core, with proofs

SemSource turns repositories, documents and object stores into graph entities. This
project models the parts of it whose correctness is hardest to see, and proves what they
promise, in four groups.

**Documents into passages.** `Lines`, `Headings`, `Sections`, `Merging`, `Blocks`, `Cuts`,
`Oversized`, `KeyGroups`, `Weaving` and `Subdivision` follow `handler/doc/splitter.go`
function by function: each loop of the source is a method proved equal to a specification
function. `Reading`, `Structure`, `Outline` and `Strategies` say what those functions mean
in the text's own terms: characters and white space, protected lines, headings, blocks and
sentences, the outline of sections, lists of settings. `Filling` and `Packing` say how full
pieces and passages are. `Coverage`, `SizeLaws`, `Edges` and `Splitter` prove what the
pipeline as a whole guarantees; `Exceeding` and `Finishing` say exactly where it exceeds the
hard maximum and where it does not return; `CommentGap` and `Extremes` hold documents, built
with `Documents`, on which each promise fails. `DocEntities` takes the passages to graph
entities. `Bytes`, `Utf8` (section 3 of RFC 3629) and `Spans` are the ground they stand on.

**Identity.** `Segments` is the segment grammar and the passes that bring a text into it;
`EntityId` the slugs and sanitizers, and `Keeping` what they keep of their input; `Identity`
the six-part identity, its size budget and its parsing. SHA-256 is any function into 64 lower-case hexadecimal digits.

**Delivery and shutdown.** `Publisher` is the bounded-queue publisher as a machine of
atomic steps; `Delivery` holds its methods, their loops proved to be runs of that machine;
`Stream` is the deduplicating stream; `Joining` holds the worker group and the seed
supervisor; `Shutdown` composes them into a component from the end of Start to the end of
Stop, under every interleaving and any number of Stop calls that time out; `Stopping` says
that Stop always gets on and when it can still succeed.

**Reconcilers.** `Submodules`, `Passes` and `Subwatch` are the submodule watcher with its
store, `ChangeDetection` and `ObjectStore` the object-store passes, `Branches` the branch
watcher, `Routing` the extension table. Maps are walked in any order and writes, fetches and
worktrees may fail at any point. `Ordering` and `Decimal` serve them.

## What the proofs found

Where code and comments part, the model follows the code.

- *Passages tile the document* (`handler/doc/splitter.go` 38-41, 579) is false inside a
  key/value list: lines between two groups are in no passage.
  `Splitter.ReproducesUnlessLost` gives the exact condition and
  `CommentGap.CommentIsInNoPassage` a document of 27 bytes.
- *The hard maximum is never exceeded* (18) is false: the units a section is divided into
  without regard to size exceed it whenever they are too long. These are key groups and the
  text around them, isolated fences and the text between them, and on the size path single
  lines of fenced blocks. `Exceeding.OverHardMaxExactlyWhere` proves that the passages over
  the maximum are exactly those units; `Extremes.LongLineExceedsHardMax` is a document.
- The splitter does not return on every document. With the ceiling inside the hard maximum
  it fails to exactly when a prose block over the ceiling, in a section divided by size,
  holds hardMax continuation bytes in a row with no sentence end right before them, or the
  block's last one there (`Finishing.SplitterFinishesUnlessStuck`, with a document in
  `Extremes.StrayBytesLoopForever`). Well-formed text never does.
- *ScopedSystemSlug is idempotent under SystemSlug* (`entityid/entityid.go` 232-240) fails
  exactly when the cap cuts a slug right after a hyphen
  (`EntityId.SystemSlugIdempotence`, with the input in
  `EntityId.SlugCutAfterHyphenIsRekeyed`).
- The publisher's Stop returns nil over undelivered entities. Whenever it reports success,
  all that was offered was delivered if and only if nothing is queued, no Send is waiting or
  refused, and none was dropped (`Publisher.SuccessDeliversAllIff`). It can fail when the
  publisher was never started, when the drain loop had left through its context before the
  close, and when a Send is in progress across Stop
  (`Publisher.NeverStartedReportsSuccess`, `Publisher.ExitThroughContextLosesItems`,
  `Publisher.PendingSendIsLost`). The component's order of joins excludes the last.
- Submodule link paths are meant to keep instance names apart (`internal/subwatch/subwatch.go`
  206-210). At one pin two links share their instances, and removing one takes the other's,
  if and only if the slugs of their suffixes agree (`Submodules.TearsDownIff`,
  `Submodules.InstanceSlugsAgree`); `a/b` and `a.b` both do so with `a-b`
  (`Submodules.LikePathsCollide`).
- A pin is taken to have moved when its whole SHA changed, while names carry twelve
  characters of it. A move between two SHAs with one head deletes what it has just put, so
  that for a while neither version is there (`Submodules.ShortShaMoveTearsDown`).
- A URL that changes at an unmoved, unconfirmed pin leaves instances that nothing tracks
  (`Submodules.ChangedUrlStrays`). After a healthy pass the store holds exactly what is
  tracked, if it did before, if and only if the pass loses nothing that it keeps and puts
  nothing new again (`Submodules.ExactnessSurvivesIff`).
- *A retraction that failed is re-derived by the next pass*
  (`processor/objectstore-source/component.go` 372-376) is false. The keys are forgotten
  first, and a forgotten key is announced again if and only if it has been recorded again
  since (`ObjectStore.AnnouncedAgainIff`).
- The object-store handler asks that a key whose publication failed be forgotten
  (`handler/objectstore/handler.go` 174-178); the component forgets only removed keys, and a
  recorded object is not fetched until its token moves (`ObjectStore.FetchedUnlessRecorded`).
- A seed started over one that still runs leaves that one out of hold: no later Stop cancels
  or joins it (`Joining.UnheldIsLost`). All running seeds are held after a start if and only
  if none was running before it (`Joining.Supervisor.Start`).
- After one dropped or failed entity no Stop of a component ever succeeds, however often it
  is retried; with nothing lost one still can (`Stopping.SuccessStillPossibleIff`).
- Branch removal follows the cap check, so one discovery may leave room unused;
  `Branches.BranchWatcher.Discover` says exactly when, and two always suffice.

## Model

| member | source | states |
|---|---|---|
| Utf8.CutAtBoundary | handler/doc/splitter.go:555-563 | cutting well-formed UTF-8 at a character start leaves both halves well formed |
| Reading.DecodesEncoded | handler/doc/splitter.go:723-729 | a character's encoding is decoded to that character, whatever follows it |
| Reading.WidthMeansEncoded | handler/doc/splitter.go:723-729 | a character is read, and not a stray byte, if and only if the text begins with some character's encoding |
| Reading.SpaceAtFrontReads | handler/doc/splitter.go:139-141 | what is trimmed in front is exactly one of Unicode's white-space characters |
| Reading.TrimSpaceTakes | handler/doc/splitter.go:139-141 | trimming takes only white space off either end, and all of it |
| Lines.Scan | handler/doc/splitter.go:125-158 | the scan loops compute the line list of the specification, flags included |
| Lines.MarkProtected | handler/doc/splitter.go:139-157 | the in-place flag loop marks front matter, delimiters and lines after an odd number of delimiters, and nothing else |
| Lines.FlagStep | handler/doc/splitter.go:139-156 | the declarative notion of protection changes from line to line exactly as the two flags do |
| Structure.ProtectedExactly | handler/doc/splitter.go:139-162 | a line is protected if and only if it is front matter, begins with three backticks or tildes, or has an odd number of such lines before it outside front matter |
| Lines.ScanPartitions | handler/doc/splitter.go:125-137 | the lines partition the content: none empty, each beginning where the last ended |
| Lines.ScanText | handler/doc/splitter.go:127-136 | a line ends just past its own newline and its text is its bytes without the line ending |
| Headings.HeadingIsUnprotected | handler/doc/splitter.go:244-337 | no protected line is ever a heading, in either format; levels are 1 to 6 |
| Structure.AdocExactly | handler/doc/splitter.go:268-285 | an AsciiDoc heading is exactly an unprotected line of one to six equals signs, a space and the text |
| Structure.AtxExactly | handler/doc/splitter.go:287-305 | a hashed heading is exactly an unprotected line of one to six hashes, then nothing, or a space and the text with any closing hashes dropped |
| Structure.SetextExactly | handler/doc/splitter.go:307-339 | an underlined heading is exactly an unprotected line of prose over an unprotected line of two or more equals signs (level 1) or hyphens (level 2) |
| Structure.HeadingExactly | handler/doc/splitter.go:243-252 | AsciiDoc knows only its titles; in Markdown a line is a heading in either of the two ways, and never in both |
| Headings.FormatsAgree | handler/doc/splitter.go:268-306 | an AsciiDoc title and its ATX twin with as many markers give the same level, and the same text if and only if it does not end in a hash |
| Headings.UnderlineAgrees | handler/doc/splitter.go:288-337 | a text line underlined by = or - is a heading of its whole text at level 1 or 2, the one the same words make after one hash or two if and only if they do not end in a hash |
| Sections.PathOf | handler/doc/splitter.go:199-211 | popping and pushing the ancestor stack yields the declarative path: every earlier heading below all levels since, outermost first, then the heading itself |
| Sections.OpenStep | handler/doc/splitter.go:195-202 | the headings open at the next heading are those open now that are shallower than it |
| Sections.OpenDeepens | handler/doc/splitter.go:194-198 | the open headings strictly deepen |
| Sections.CutSections | handler/doc/splitter.go:177-225 | the section loop computes the specified section list, paths included |
| Sections.SectionsPartition | handler/doc/splitter.go:177-225 | the sections partition the document and each starts on its first line or on an unprotected one |
| Outline.HeadingOpensSection | handler/doc/splitter.go:177-225 | every heading line opens a section under its text, whose path lists, in order, exactly the headings up to it with only deeper ones after them |
| Outline.SectionHasHeading | handler/doc/splitter.go:190-224 | every section is opened by a heading line, but for the text before the first, which has no heading and no path |
| Merging.MergeSmall | handler/doc/splitter.go:344-359 | the in-place merge loop computes the specified merge |
| Merging.MergeKeepsPartition | handler/doc/splitter.go:344-359 | merging keeps the partition of the document |
| Merging.MergedSectionIsUnion | handler/doc/splitter.go:339-359 | a merged section is a run of sections under the first one's heading and path; each later one found the run below the floor and left it within the ceiling, and the one after the run did not |
| Merging.MergeIsIdempotent | handler/doc/splitter.go:339-359 | no neighbours left over can merge; a list is unchanged exactly when none can; merging twice is merging once |
| Blocks.CutBlocks | handler/doc/splitter.go:424-460 | the block loop, with its end adjustments in place, computes the specified blocks |
| Blocks.BlocksTile | handler/doc/splitter.go:421-460 | the blocks tile their section |
| Blocks.BlocksMeetAtBlanks | handler/doc/splitter.go:424-460 | blocks meet only where an unprotected blank line is followed by a line that is not blank |
| Structure.BlocksCutExactly | handler/doc/splitter.go:424-460 | a new block begins at a line if and only if it holds text, the line before it is blank, and some line of the section before that holds text |
| Cuts.FindSentenceEnds | handler/doc/splitter.go:536-553 | the scan for terminators computes the specified sentence ends |
| Structure.SentenceEndsExactly | handler/doc/splitter.go:534-553 | a sentence ends exactly past a full stop, exclamation or question mark and one closing quote or bracket if there is one, at the block's end or before white space |
| Cuts.EndsClimb | handler/doc/splitter.go:536-553 | sentence ends strictly increase within the block |
| Cuts.EndsFollowAscii | handler/doc/splitter.go:536-553 | a sentence ends after an ASCII byte, at the block's end or before white space |
| Cuts.SentenceEndsAreBoundaries | handler/doc/splitter.go:536-553 | on well-formed text sentence ends are character boundaries |
| Cuts.BackOff | handler/doc/splitter.go:555-563 | the back-off loop computes the rune boundary |
| Cuts.RuneBoundaryIsNearest | handler/doc/splitter.go:555-563 | the boundary is the nearest character start at or before the offset, or 0 |
| Cuts.HardCut | handler/doc/splitter.go:513-527 | one hard-cut loop emits the specified pieces, where the model says it returns |
| Cuts.HardCutsOnRuneStarts | handler/doc/splitter.go:505-532 | every hard cut is on a rune start, whatever the bytes |
| Cuts.HardCutsTile | handler/doc/splitter.go:507-532 | hard-cut pieces tile the range and none exceeds the hard maximum |
| Filling.HardCutsEnd | handler/doc/splitter.go:517-521 | a hard cut is made only while more than the maximum is left, at the last rune start within it |
| Cuts.CutSentences | handler/doc/splitter.go:507-532 | the sentence-accumulation loop computes the specified cuts |
| Cuts.CutOnSentencesTiles | handler/doc/splitter.go:505-532 | the sentence cutter tiles its block in pieces within the hard maximum, on character boundaries for well-formed text |
| Filling.CutOnSentencesFills | handler/doc/splitter.go:505-532 | each piece ends at the last sentence end before one past the ceiling, or is a hard cut where no sentence end would do, or is of the tail after them all |
| Cuts.LoopsMeansNeverExits | handler/doc/splitter.go:517-521 | the model says a hard-cut loop never ends exactly when the loop's guard holds after every number of turns |
| Cuts.CutOnSentencesFinishes | handler/doc/splitter.go:507-532 | whatever the bounds, the cutter returns on every block in which no hardMax continuation bytes follow a byte |
| Cuts.CutOnSentencesFinishesUnlessStuck | handler/doc/splitter.go:507-532 | with the ceiling inside the hard maximum the cutter returns if and only if its block has no such run without a sentence end right before it, or with the block's last one there |
| Cuts.StuckLoopsForever | handler/doc/splitter.go:507-532 | whatever the bounds, such a run keeps the cutter from ever returning |
| Cuts.WellFormedNeverStalls | handler/doc/splitter.go:507-563 | well-formed text has no such run when hardMax is at least 4 |
| Oversized.CutLines | handler/doc/splitter.go:484-503 | the line-cut loop computes the specified pieces |
| Oversized.CutOnLinesTiles | handler/doc/splitter.go:481-503 | the pieces tile the block, end on line ends, and exceed the hard maximum only as single lines |
| Filling.CutOnLinesFills | handler/doc/splitter.go:484-503 | each piece but the last is followed by a line that would take it past the hard maximum |
| Oversized.Split | handler/doc/splitter.go:465-473 | an oversized block goes to the line cutter when fenced and over the maximum, stays whole when fenced and within it, and goes to the sentence cutter otherwise |
| KeyGroups.FindGroups | handler/doc/splitter.go:677-714 | the counting and grouping loop, extending its last group in place, computes the specified groups |
| Strategies.AssignmentExactly | handler/doc/splitter.go:716-734 | a line is an assignment with a token if and only if it is an identifier, an equals sign and anything, and the token is the identifier up to its first underscore |
| Strategies.QualifiesExactly | handler/doc/splitter.go:677-714 | a block is a list of settings if and only if it has a protected line, three groups or more, and assignments for six tenths of its content lines or more |
| KeyGroups.RunsUniform | handler/doc/splitter.go:669-675 | a group's assignments share one token |
| KeyGroups.RunsMaximal | handler/doc/splitter.go:669-675 | neighbouring groups that touch have different tokens |
| KeyGroups.RunsCover | handler/doc/splitter.go:684-708 | every assignment of the block is in a group |
| KeyGroups.GapLinesAreNotAssignments | handler/doc/splitter.go:689-699 | a line between groups is blank, a delimiter or no assignment |
| Weaving.WeaveCovers | handler/doc/splitter.go:588-611 | chosen spans and the text around them cover all but what lies between spans of one chunk |
| Weaving.WeaveMembers | handler/doc/splitter.go:588-663 | a span with text is emitted exactly when it is a chosen span or a stretch of text around them |
| Subdivision.SplitHomogeneous | handler/doc/splitter.go:588-611 | the cursor loop over qualifying blocks computes the specified spans, nothing when none qualifies |
| Subdivision.IsolateFenced | handler/doc/splitter.go:629-663 | the fence-isolating loop computes the specified spans, nothing without a fence or with too little prose |
| Subdivision.SplitBySize | handler/doc/splitter.go:389-419 | the greedy size loop over blocks computes the specified spans |
| Packing.BySizePacks | handler/doc/splitter.go:389-419 | on the size path a span made of whole blocks could not have taken in the block after it: with it, it would be over the ceiling |
| Subdivision.SubdivideSection | handler/doc/splitter.go:364-419 | the three strategies are tried in the source's order |
| Strategies.SubdivideExactly | handler/doc/splitter.go:364-388 | a section with a list of settings is divided at every group of it; else one with the floor's worth of prose around fences has each fence set apart; else one within the ceiling stays whole; the rest goes by size |
| Coverage.GapsAreGapLines | handler/doc/splitter.go:588-611 | what a qualifying block's groups miss is exactly the bytes of lines between groups |
| Coverage.IsolatedTiles | handler/doc/splitter.go:629-663 | isolating fences tiles the section exactly |
| Coverage.BySizeTiles | handler/doc/splitter.go:389-419 | the size path tiles the section exactly |
| Coverage.SubdivideCovers | handler/doc/splitter.go:361-419 | every strategy's spans are in order in the section and miss exactly its gap lines |
| CommentGap.CommentIsInNoSpan | handler/doc/splitter.go:577-611 | a fenced list of three settings with a comment after the first divides into five spans that leave the comment out |
| CommentGap.CommentIsInNoPassage | handler/doc/splitter.go:38-41 | those lines are the scan of a 27-byte document; its passages omit bytes 8 to 14 and do not concatenate to it, for all bounds and formats |
| SizeLaws.BySizeOrigin | handler/doc/splitter.go:389-419 | a size-path span is a union of blocks within the ceiling or a piece of one oversized block |
| SizeLaws.PieceSize | handler/doc/splitter.go:465-532 | a piece of an oversized block is within the hard maximum unless it is one line of a fenced block |
| SizeLaws.UnprotectedSized | handler/doc/splitter.go:364-419 | a section without protected lines yields spans within the hard maximum, and one over the ceiling lies in one block |
| Edges.SubdivideEdges | handler/doc/splitter.go:364-419 | every passage edge is a block edge or lies in a block that may be cut, and is a character boundary of well-formed text |
| Edges.FenceCutOnlyWhere | handler/doc/splitter.go:465-503 | an edge strictly inside protected lines lies in a key/value list or in a block over the hard maximum |
| Splitter.SplitPassages | handler/doc/splitter.go:89-118 | the whole pipeline computes the specified passages |
| Splitter.PassagesAreSlices | handler/doc/splitter.go:104-117 | passage number k has ordinal k, its body is its slice of the content, and its heading and path are its section's |
| Packing.PassagesPack | handler/doc/splitter.go:389-419 | in a section divided by size no passage of whole blocks could have taken in the next block |
| Packing.PassagesOfRuns | handler/doc/splitter.go:95-118 | every passage lies in a run of sections as merging takes them in, under the first one's heading and path |
| Splitter.PassagesCoverExactly | handler/doc/splitter.go:38-41 | passages are non-empty, ordered and disjoint, and cover exactly the bytes of no gap line |
| Splitter.ReproducesUnlessLost | handler/doc/splitter.go:38-41 | the bodies concatenate to the document if and only if no key/value list has a gap line |
| Splitter.UnprotectedPassagesSized | handler/doc/splitter.go:12-21 | a passage of a section without protected lines is within the hard maximum, and within one block if over the ceiling |
| Splitter.PassagesKeepCharacters | handler/doc/splitter.go:505-563 | the passages of a well-formed document are well formed |
| Splitter.FencesStayWhole | handler/doc/splitter.go:120-158 | a passage edge is strictly inside a run of protected lines only in a key/value list or a block over the hard maximum |
| Exceeding.LongOnSizePath | handler/doc/splitter.go:389-419 | on the size path a span over the hard maximum is emitted if and only if it is a line of a fenced block |
| Exceeding.LongSpans | handler/doc/splitter.go:364-419 | a span over the hard maximum is one of a section's if and only if it is a unit that its strategy does not measure |
| Exceeding.OverHardMaxExactlyWhere | handler/doc/splitter.go:12-21 | the passages over the hard maximum are exactly the over-long key groups, isolated fences, stretches of text around either, and lines of fenced blocks on the size path |
| Exceeding.HardMaxExceededOnlyBy | handler/doc/splitter.go:12-21 | some passage is over the hard maximum if and only if some such unit is |
| Extremes.LongLineExceedsHardMax | handler/doc/splitter.go:465-503 | a fence around one line of hardMax + 1 letters has a passage over the hard maximum |
| Finishing.SplitterLoopsWhere | handler/doc/splitter.go:364-419 | whatever the bounds, the splitter fails to return if and only if the sentence cutter does on a prose block over the ceiling of a section divided by size |
| Finishing.SplitterFinishesUnlessStuck | handler/doc/splitter.go:507-563 | with the ceiling inside the hard maximum the splitter returns if and only if no such block holds a run that stops its cutter |
| Finishing.SplitterFinishes | handler/doc/splitter.go:95-118 | so it returns on every document without hardMax continuation bytes in a row, and on every well-formed one when hardMax is at least 4, whatever the other bounds |
| Extremes.StrayBytesLoopForever | handler/doc/splitter.go:513-527 | it never returns on one line of hardMax + 1 stray continuation bytes |
| Segments.MapRunes | entityid/entityid.go:319-328 | the rune loop writes one hyphen for each rune outside the alphabet |
| Segments.MappedFixes | entityid/entityid.go:148-161 | mapping leaves a text alone exactly when all its bytes are allowed |
| Segments.CollapseRuns | entityid/entityid.go:163-165 | replacing "--" by "-" until none is left is a one-pass collapse of hyphen runs |
| Segments.ReplaceKeepsRuns | entityid/entityid.go:329-331 | one round of replacement does not change that collapse |
| Segments.SlugIsClean | entityid/entityid.go:148-168 | mapping, collapsing and trimming leave allowed bytes, no hyphen pair, alphanumerics at both ends |
| Segments.SlugFixes | entityid/entityid.go:148-168 | and leave alone exactly the texts of that shape |
| Keeping.MappedExactly | entityid/entityid.go:148-162 | letters, digits, hyphens and underscores stay, and every other character or stray byte becomes one hyphen |
| Keeping.CollapsedExactly | entityid/entityid.go:163-165 | two hyphens in a row are as good as one, none are left in a row, and nothing else changes |
| Keeping.TrimExactly | entityid/entityid.go:166-168 | trimming keeps exactly what lies between the first and the last letter or digit |
| EntityId.MakeSystemSlug | entityid/entityid.go:132-179 | the source's steps compute the specified slug |
| EntityId.AbsolutePathSlugsItsName | entityid/entityid.go:137-146 | an absolute path slugs like its last element without ".git", wherever the checkout lies |
| Keeping.SluggedExactly | entityid/entityid.go:132-146 | a URL is slugged from its host and path, less one ".git" at the end and one "./" in front, and by its last element if that begins with a slash |
| Keeping.CappedExactly | entityid/entityid.go:170-178 | a slug over 80 bytes keeps its first 73, a hyphen and six digits of its hash |
| Keeping.ScopedExactly | entityid/entityid.go:242-253 | a version's slug joins the project's with a hyphen and is slugged again, or is left out if empty |
| EntityId.SystemSlugInGrammar | entityid/entityid.go:132-179 | a system slug is empty or a grammar-valid segment of at most 80 bytes |
| EntityId.SystemSlugIdempotence | entityid/entityid.go:170-178 | slugging twice is slugging once if and only if the cap did not cut after a hyphen; a second application always settles |
| EntityId.SlugCutAfterHyphenIsRekeyed | entityid/entityid.go:236-240 | an input on which the promised idempotence fails |
| EntityId.CappedCollision | entityid/entityid.go:190-194 | two capped slugs agree only if their hash digits and first 73 bytes do |
| EntityId.ScopedSlugFixed | entityid/entityid.go:209-253 | a scoped slug is in the grammar and the cap, and SystemSlug fixes it exactly outside that corner |
| EntityId.MakeInstance | entityid/entityid.go:318-347 | the source's steps compute the specified instance |
| Keeping.InstanceExactly | entityid/entityid.go:332-346 | the slug if it is not empty and within 60 bytes; its longest front of at most 51 that ends in a letter or digit, a hyphen and the hash if over; the hash alone if empty |
| EntityId.SanitizeInstanceLaws | entityid/entityid.go:307-347 | every text becomes a clean segment of at most 60 bytes; exactly those are unchanged; a second application changes nothing |
| EntityId.MakeSegment | entityid/entityid.go:363-381 | the source's steps compute the specified segment |
| Keeping.SegmentExactly | entityid/entityid.go:373-380 | the mapped text from its first letter or digit on, with the hash after a hyphen if it was altered; the hash alone if it has none |
| EntityId.SanitizeSegmentLaws | entityid/entityid.go:349-381 | every text becomes a segment; exactly the segments are unchanged; a second application changes nothing |
| EntityId.SegmentCollision | entityid/entityid.go:355-361 | two altered inputs give one result only if their short hashes are equal |
| Identity.AuthorityHalves | entityid/entityid.go:38-49 | an authority is valid exactly when both halves are segments within the pair budget |
| Identity.BuildFits | entityid/entityid.go:25-76 | under a valid authority, with system, domain and type in their caps, every instance fits 256 bytes and is rewritten only if it would not have |
| Identity.BuildFitsOnlyWhen | entityid/entityid.go:69-105 | in general an identity fits exactly when it fitted unbounded or five segments leave room for the short hash |
| Identity.BoundInstanceExactly | entityid/entityid.go:78-105 | a bounded instance is the longest front that ends in a letter or digit and leaves room for a hyphen and the hash, then those; the hash alone if and only if there is no such front |
| Identity.BuildBoundsExactly | entityid/entityid.go:51-105 | an identity splits into org, platform, system, domain, type and the instance, bounded in that way exactly if the whole would be over 256 bytes |
| Identity.BoundInstanceIsSegment | entityid/entityid.go:88-105 | bounding keeps a valid instance valid |
| Identity.BuildKeepsGrammar | entityid/entityid.go:51-76 | six valid segments in, six valid segments out |
| Identity.BuildSplits | entityid/entityid.go:69-76 | splitting an identity gives back the five segments and the instance as it stands in it |
| Identity.PartsRecovered | entityid/entityid.go:440-448 | Parts and OrgFromID recover domain, type and org even after truncation, whatever the instance holds |
| Identity.FindOrg | entityid/entityid.go:417-429 | the rune-by-rune search returns what precedes the first dot, or nothing |
| Identity.BuildCollision | entityid/entityid.go:56-76 | equal identities have equal stems, and instances that are equal or whose hashes coincide |
| Identity.CheckKey | entityid/entityid.go:402-415 | the key check accepts exactly non-empty texts of unreserved printable bytes |
| Identity.ValidKeyExactly | entityid/entityid.go:396-415 | the printable ASCII characters but space, asterisk, slash, greater-than and backslash |
| Identity.BuildIsKey | entityid/entityid.go:3-8 | an identity of valid segments is a valid NATS key |
| Publisher.RunKeepsInv | internal/entitypub/publisher.go:255-384 | on every interleaving offered = published + failed + dropped + queued + in hand + in flight; accepted items are settled, held and queued once each, in order; at most 20 attempts |
| Publisher.OrderKept | internal/entitypub/publisher.go:361-384 | every step keeps settled outcomes, hand and queue, end to end, equal to what was accepted |
| Publisher.ConservedKept | internal/entitypub/publisher.go:287-298 | every step keeps the count of offered entities |
| Publisher.SettledMeansDelivered | internal/entitypub/publisher.go:230-246 | Stop's success after waiting means nothing dropped or failed, and all accepted delivered but what is queued; nothing is queued unless the loop left through its context before the close |
| Publisher.SuccessDeliversAllIff | internal/entitypub/publisher.go:227-246 | over all runs, when Stop turns to reporting success everything offered was delivered if and only if nothing is queued, no Send is waiting or refused, and none was dropped |
| Publisher.ClosedAcceptsNothing | internal/entitypub/publisher.go:227-231 | after the close nothing is ever accepted |
| Publisher.FlushEnds | internal/entitypub/publisher.go:457-479 | after the close a flush can always go on, each of its steps brings its end nearer, and nobody else's puts it off |
| Publisher.ExpiryCancels | internal/entitypub/publisher.go:243-246 | a Stop whose deadline passes reports an incomplete settlement and ends the loop's context for good |
| Publisher.ExitThroughContextLosesItems | internal/entitypub/publisher.go:346-354 | a run in which Stop succeeds over an undelivered entity because the loop had left through its context |
| Publisher.NeverStartedReportsSuccess | internal/entitypub/publisher.go:230-234 | a run in which Stop succeeds over an undelivered entity because nothing was started |
| Publisher.PendingSendIsLost | internal/entitypub/publisher.go:261-283 | a run in which Stop succeeds while a Send waits, whose entity is then dropped |
| Stream.StoredOnce | internal/entitypub/publisher.go:58-62 | a deduplicating stream stores a message once if and only if some copy arrives and every later one is inside the window of the first |
| Stream.ShortSpanStoresOnce | internal/entitypub/publisher.go:72-75 | copies arriving in a span shorter than the window are stored once, in any order |
| Delivery.GoesOnMeans | internal/entitypub/publisher.go:416-445 | an attempt is followed by another if and only if it failed with a transient error, is not the twentieth, returned inside ninety seconds of the start, and neither a cancellation nor the end of the context in the pause stopped it |
| Delivery.PauseIs | internal/entitypub/publisher.go:400-450 | the first pause is the initial one, and pause k is that times two to the k - 1, up to the largest |
| Delivery.AttemptsFollow | internal/entitypub/publisher.go:404-451 | the next attempt begins after the one before it has returned and its pause has passed |
| Delivery.EntityPublisher.PublishOne | internal/entitypub/publisher.go:391-455 | for every course of replies, latencies and context: attempts begin when the course says and stop at the first that no other follows; delivered if and only if some attempt so reached is acknowledged; canceled only if the context has ended |
| Delivery.EntityPublisher.DeliveredOnce | internal/entitypub/publisher.go:386-390 | against a window longer than that plus one latency a delivery is stored at most once, and exactly once if it succeeded |
| Delivery.EntityPublisher.Send | internal/entitypub/publisher.go:255-285 | an entity is queued, or counted as dropped and reported; as a run of the machine |
| Delivery.EntityPublisher.SettleBatch | internal/entitypub/publisher.go:368-384 | every entity of a batch ends as its own course has it, each course beginning when the one before is over, cancelled ones included; as a run of the machine |
| Delivery.EntityPublisher.DrainBatch | internal/entitypub/publisher.go:361-384 | one tick takes up to 50 entities from the front and settles each by its course; as a run of the machine |
| Delivery.EntityPublisher.Flush | internal/entitypub/publisher.go:457-479 | the flush empties the queue and settles all of it by its courses; as a run of the machine |
| Joining.Group.Go | internal/workerjoin/group.go:19-29 | registering a worker opens a new channel exactly when none is active |
| Joining.Group.Finish | internal/workerjoin/group.go:30-37 | the last worker's return closes the current channel |
| Joining.ReleasedMeansIdle | internal/workerjoin/group.go:39-59 | a wait is released exactly when the group has been idle since it began, whatever was started meanwhile |
| Joining.Supervisor.Start | internal/seedsup/supervisor.go:45-52 | the started seed is the one held, over whichever was; all running seeds are held afterwards if and only if none was running |
| Joining.Supervisor.SeedReturns | internal/seedsup/supervisor.go:54-66 | a seed's return closes its channel and lets go of nothing |
| Joining.Supervisor.Stop | internal/seedsup/supervisor.go:78-105 | with other calls going on meanwhile: the seed found held is cancelled, let go of only when it has returned, and kept when the deadline cut the wait short; a newer seed is never let go of |
| Joining.Supervisor.StopAgain | internal/seedsup/supervisor.go:91-98 | unless a seed was started meanwhile, a Stop that timed out and the next one between them join exactly the seed that was held |
| Joining.HeldMeansNewest | internal/seedsup/supervisor.go:45-52 | over any history of starts, returns and stops, a running seed is held if and only if it is the newest |
| Joining.StopSparesNewerSeeds | internal/seedsup/supervisor.go:92-98 | however many seeds are started while a Stop waits, it lets go of the one it took and of no other |
| Joining.UnheldIsLost | internal/seedsup/supervisor.go:78-85 | a seed out of hold is never held again, and if not yet cancelled never is |
| Joining.Supervisor.Running | internal/seedsup/supervisor.go:107-121 | Running answers whether the newest seed has still to return, and so whether any has when all are held |
| Shutdown.RunKeepsInv | processor/ast-source/component.go:1029-1064 | every move of seed, workers, publisher and Stop keeps the shutdown invariant |
| Shutdown.ClosedMeansJoined | processor/ast-source/component.go:1029-1064 | the publisher is stopped only when the seed has returned and no worker, nested or not, is left; no Send is in progress and none can begin |
| Shutdown.NothingOfferedAfterClose | internal/seedsup/supervisor.go:69-77 | from the close on nothing is offered, accepted or dropped, however often Stop is retried |
| Shutdown.RefusedOnlyWhenFull | internal/entitypub/publisher.go:269-283 | a component's Send is refused only by a full queue, never by the close |
| Shutdown.SuccessfulStopDeliversEverything | processor/ast-source/component.go:1055-1063 | when Stop succeeds everything ever offered was published, or is still queued and the Start context had ended before the close |
| Stopping.StopEnds | processor/ast-source/component.go:1029-1064 | with seed and workers returned, every move but a context's end or a look at an empty queue brings the end of Stop nearer, and those do not put it off |
| Stopping.StopNeverStuck | processor/ast-source/component.go:1029-1064 | with seed and workers returned, a move that leads on can be made in every phase of Stop |
| Stopping.CutShortFails | processor/ast-source/component.go:1036-1059 | an ended context after the seed's wait or in a later one, or a watcher that would not stop, fails the Stop, closes nothing and leaves the component running |
| Stopping.StopGoesOn | processor/ast-source/component.go:1036-1063 | any other move of Stop takes it to its next phase, and the last one to success if and only if nothing was lost |
| Stopping.LossIsFinal | internal/entitypub/publisher.go:236-241 | after one drop or terminal failure no run of moves has a Stop that succeeds |
| Stopping.SuccessStillPossibleIff | processor/ast-source/component.go:1029-1064 | in every reachable state with seed and workers returned, some later Stop can succeed if and only if nothing was dropped or failed |
| Submodules.FindDesired | internal/subwatch/subwatch.go:134-141 | the loop computes the wanted pins, a later entry for a path winning |
| Submodules.DesiredExactly | internal/subwatch/subwatch.go:134-141 | a path is wanted if and only if some entry for it is materialized and has a SHA of twelve bytes or more, at the pin of the last such entry |
| Submodules.TickedExactly | internal/subwatch/subwatch.go:143-197 | after a healthy pass a wanted path keeps its link if its commit is the wanted one, and has the wanted link if not; it is confirmed exactly if it was tracked before |
| Passes.LoopsServe | internal/subwatch/subwatch.go:143-197 | one path's failure is its own: every wanted path with no refused put or failed build of its own is tracked at its wanted commit, and confirmed if it was tracked before |
| Submodules.LoopsMakeTicked | internal/subwatch/subwatch.go:143-197 | the three loops together, in any map order, make the one specified result |
| Submodules.TwoTicksSettle | internal/subwatch/subwatch.go:123-198 | one healthy pass tracks exactly the wanted pins; two leave a third nothing to do |
| Submodules.FirstTick | internal/subwatch/subwatch.go:182-197 | from nothing tracked one pass spawns exactly the wanted pins, none confirmed |
| Submodules.MoveSparesNew | internal/subwatch/subwatch.go:150-156 | deleting a moved pin's old instances leaves its new ones and every wanted path's, when what the pass gives up is named apart from what it keeps |
| Submodules.MoveSparesIffApart | internal/subwatch/subwatch.go:150-156 | for any naming, a moved pin's new instances outlive the deletion of its old ones if and only if the two share no name |
| Submodules.ShortShaMoveTearsDown | internal/subwatch/subwatch.go:145-156 | a move between SHAs with one twelve-byte head deletes every instance it has just put |
| Submodules.HoldsSurvivesIff | internal/subwatch/subwatch.go:143-197 | all tracked instances are in the store after a healthy pass, if they were before, if and only if the pass puts again what it deletes of pins it keeps |
| Submodules.SparesLosesNothing | internal/subwatch/subwatch.go:143-164 | a pass that gives up no instance of a path still wanted loses nothing |
| Passes.LoopsMakePassed | internal/subwatch/subwatch.go:143-197 | for any naming and map order, the three loops leave a healthy store with exactly the specified names |
| Submodules.ExactnessSurvivesIff | internal/subwatch/subwatch.go:143-197 | the store holds exactly the tracked instances after a healthy pass, if it did before, if and only if moreover no pin put again brings a name that nothing tracks |
| Submodules.SameUrlsBringNothing | internal/subwatch/subwatch.go:166-180 | unconfirmed, unmoved pins that kept their URL bring no such name |
| Submodules.ChangedUrlStrays | internal/subwatch/subwatch.go:166-180 | one unconfirmed link whose URL changed at its pin leaves instances that nothing tracks |
| Submodules.SecondPassPutsNothingNew | internal/subwatch/subwatch.go:143-197 | a second pass over the same inventory leaves the store's names as the first did |
| Submodules.SuffixesCollide | internal/subwatch/subwatch.go:206-210 | link paths have one raw suffix, before it is slugged, exactly when they differ only in slashes against hyphens |
| Submodules.InstanceSlugsAgree | internal/sourcespawn/components.go:207-215 | the slugs that end instance names agree exactly when the full slugs do, or the cap makes one of both: one 73-byte head and one hash, or one full slug equal to the other's capped one |
| Submodules.InstancesSharedIff | internal/subwatch/subwatch.go:206-240 | two links at one pin share an instance name if and only if those slugs agree, and then share all |
| Submodules.RemovalSparesIffApart | internal/subwatch/subwatch.go:258-266 | for any naming, removing one tracked link leaves another's instances complete if and only if they share no name |
| Submodules.LikeSlugsShareInstances | internal/subwatch/subwatch.go:206-240 | for links at one pin whose slugs agree, removing one takes every instance of the other |
| Submodules.TearsDownIff | internal/subwatch/subwatch.go:258-266 | tracked and held at one pin, one link's removal tears down another's instances if and only if their slugs agree |
| Submodules.LikePathsCollide | internal/subwatch/subwatch.go:206-210 | so do `a/b` and `a-b`, and so do `a.b` and `a-b`, whose raw suffixes differ |
| Subwatch.Watcher.SpawnLink | internal/subwatch/subwatch.go:200-256 | spawning removes nothing, puts all of the link's instances on success, and fails only if the link cannot be built or a put of its own is refused |
| Subwatch.Watcher.RemoveInstances | internal/subwatch/subwatch.go:258-266 | every instance is deleted but those whose delete was refused, and nothing else is |
| Subwatch.Watcher.ReconcilePath | internal/subwatch/subwatch.go:143-164 | one path's move or removal, with any write failing: done as specified or not at all, and where the pass gives up nothing it keeps, every pin's old or new instances are complete at every moment |
| Subwatch.Watcher.Tick | internal/subwatch/subwatch.go:121-198 | one pass from any state: a wanted path without trouble of its own is tracked as wanted, whatever fails for others; where it gives up nothing it keeps, tracked instances stay in the store and moves show old or new ones at every moment, whatever fails; healthy, exactly the paths with an entry that can be had are tracked and the store holds exactly the specified names, for any naming; with nothing to do, nothing is written |
| Subwatch.Watcher.TwoTicks | internal/subwatch/subwatch.go:103-119 | two healthy ticks from any state leave nothing to do; the store is as the first tick leaves it, and exactly the tracked instances, if it held those before, if and only if nothing kept is lost and nothing untracked put |
| Subwatch.Watcher.QuietTicks | internal/subwatch/subwatch.go:103-119 | any number of further ticks write nothing, whether or not the store is healthy |
| Subwatch.Watcher.Poll | internal/subwatch/subwatch.go:103-119 | however many ticks follow the first two, they leave what those made |
| ChangeDetection.FallbackTokenMoves | handler/objectstore/changes.go:60-78 | without entity tags the token moves exactly when size or modification time does |
| ChangeDetection.TaggedTokenMoves | handler/objectstore/changes.go:60-78 | with entity tags the token moves exactly when the tag does |
| ChangeDetection.SkipExactly | handler/objectstore/changes.go:123-137 | an object is passed over as unsupported if and only if its key is no document's, and as empty if it is and there are no bytes |
| ChangeDetection.RefetchedExactly | handler/objectstore/changes.go:98-109 | a recorded document is fetched again if and only if it can be and its tag changed, or, without tags, its size or time |
| ChangeDetection.NewIsFetched | handler/objectstore/changes.go:98-109 | a document not recorded is fetched if and only if it can be |
| ChangeDetection.Enumerate | handler/objectstore/enumerate.go:65-79 | a failed listing gives no pass; a completed one the last entry per key under the prefix |
| ChangeDetection.SeenIsScoped | handler/objectstore/enumerate.go:58-79 | a pass observes exactly the listed keys under the prefix, each as its last entry has it |
| ChangeDetection.SeenIsPartitioned | handler/objectstore/changes.go:91-121 | every observed object is fetched, skipped or unchanged, one of them only |
| ChangeDetection.MakePlan | handler/objectstore/changes.go:91-121 | the loops and sorts compute the complete plan in key order; no pass, no plan |
| ChangeDetection.PlanIsUnique | handler/objectstore/changes.go:43-58 | the plan does not depend on map order |
| ChangeDetection.ReplanFetchesTheUnread | handler/objectstore/changes.go:80-121 | the same listing again fetches exactly what was unreadable, and removes nothing once removals are forgotten |
| ObjectStore.Handler.Retract | processor/objectstore-source/component.go:363-379 | every key found gone is forgotten and its record with it, and no other |
| ObjectStore.Handler.IngestOnce | processor/objectstore-source/component.go:266-291 | after a completed pass and its retraction the same listing has exactly the unread objects to fetch and nothing to remove; a failed listing changes nothing |
| ObjectStore.Handler.IngestTwice | processor/objectstore-source/component.go:266-291 | a second completed pass over one listing removes nothing, ingests only what the first could not read, and leaves what neither read |
| ObjectStore.AnnouncedAgainIff | processor/objectstore-source/component.go:372-379 | a forgotten key is announced as removed again if and only if it is unlisted and was recorded again since |
| ObjectStore.TrackIsLastRecord | handler/objectstore/changes.go:140-191 | over any history the tracker holds a key exactly when recorded and not forgotten since, at its last token |
| ObjectStore.FetchedUnlessRecorded | handler/objectstore/changes.go:101-108 | a listed document is fetched unless its last record, not forgotten since, has the same token |
| ObjectStore.EditedIsFetched | handler/objectstore/changes.go:98-109 | a document listed and last recorded with a tag is fetched if and only if it is not empty and the tag has changed |
| ObjectStore.Handler.IngestPlanned | handler/objectstore/handler.go:205-246 | the fetch loop completes if and only if no object to be fetched ends it, an unreadable one being passed over with its reason; it reports exactly what it ingested, skipped and found gone; cut short, what it recorded stays recorded |
| ObjectStore.Handler.Ingest | handler/objectstore/handler.go:167-246 | observed = ingested + skipped (unreadable among them) + unchanged; a key is removed exactly when recorded, not forgotten since, and absent from the completed listing; a failed listing changes nothing |
| Branches.BranchWatcher.Match | workspace/branchwatcher.go:69-98 | the matched list holds exactly the wanted branches |
| Branches.WantedExactly | workspace/branchwatcher.go:69-98 | a branch is wanted if and only if it matches and is local or checked out |
| Branches.AppliedExactly | workspace/branchwatcher.go:103-150 | a report applied forgets the removed, knows the added as reported and the rest as before |
| Branches.BranchWatcher.AddMatched | workspace/branchwatcher.go:103-138 | additions are new and wanted, each with the worktree it has or else the one made for it, and stop short only at the cap or where none can be made |
| Branches.BranchWatcher.Discover | workspace/branchwatcher.go:60-151 | cap kept, report exact and replayable, worktrees as reported; all that can be had of what is wanted is known if and only if it and what was known fit the cap |
| Branches.BranchWatcher.DiscoverTwice | workspace/branchwatcher.go:140-150 | two discoveries of one listing reach all that can be had of what is wanted whenever it fits the cap |
| Routing.CollectClaimants | processor/ast-source/routing.go:47-52 | each claimed extension gets all its claimants, the least first |
| Routing.ResolveExtension | processor/ast-source/routing.go:61-81 | the winner is the first claimant in precedence, else the least |
| Routing.RouteExtensions | processor/ast-source/routing.go:41-59 | every claimed extension, and no other, is routed to its winner |
| Routing.HeadersFollowCpp | processor/ast-source/routing.go:9-27 | headers go to C++ wherever C++ claims them, to C only where it does not |
| Routing.SameSetSameRoutes | processor/ast-source/routing.go:29-37 | equal sets of declared languages, in any order and with any repeats, give equal tables |
| Ordering.BelowExactly | handler/objectstore/changes.go:117-119 | one key sorts before another if and only if it ends, or has the lesser byte, where they part |
| DocEntities.IngestContent | handler/doc/entities.go:340-364 | an ingest emits the document with its passage count and then the passages 0 to count - 1, if and only if the authority is valid, the splitter returns and every passage's body is taken |
| DocEntities.StatesExactly | handler/doc/entities.go:352-364 | the document with its path and count, then each passage with its parent, path, ordinal and body |
| DocEntities.IDsExactly | handler/doc/entities.go:85-141 | a document's identity is org, platform, system, "web", "doc" and the sanitized path; a passage's has "chunk", and a hyphen and four or more digits after the path |
| Decimal.PadExactly | handler/doc/entities.go:139-141 | an ordinal is padded with zeros up to the width and no more |
| DocEntities.DocumentIsNoChunk | handler/doc/entities.go:85-87 | no document shares an identity with a passage, of its own or any other |
| DocEntities.ChunkIDsDiffer | handler/doc/entities.go:134-141 | passages of one document have distinct identities unless a shortened instance's hash coincides |
| DocEntities.StaleExactlyAboveCount | handler/doc/entities.go:47-53 | after any history of ingests of a path over any graph, every passage stands as the latest version that had it left it, and the ones the document no longer has are exactly those at or above its count |
| DocEntities.ReingestedDocument | handler/doc/entities.go:340-364 | the same of any sequence of texts, through the splitter |

## Left out

- Bounds of the splitter are natural numbers; the shipped values 2000, 400 and 6000 are one case. The results on sizes and on returning whose rows or text say so ask for a ceiling within the hard maximum, the order the bounds are documented with.
- The key/value share, a floating-point 0.6 in the source, is compared exactly as five assignments to three content lines.
- Letter and digit tables are parameters; white space is the exact Unicode set, spelled in bytes.
- Cuts.CutOnSentencesFinishesUnlessStuck: asks for a ceiling within the hard maximum. For other bounds `Cuts.CutOnSentencesFinishes` and `Cuts.StuckLoopsForever` still hold; between them lies one case, a run of exactly hardMax right after a sentence end that is not the last, which the cutter gets past if and only if the piece up to the next sentence end is over the ceiling.
- A loop that does not return is a result value (`Loops`); methods that meet it return it.
- Format selection by extension, title extraction, passage titles and media types: string plumbing.
- `url.Parse` is any function that yields a host and path only for texts with a slash; paths are Unix paths.
- SHA-256 is any function with the right alphabet and length: only equality of hashes is reported, not its unlikelihood.
- The framework's own prefix check inside `Authority.Validate` is not part of this model; it is taken to require every dot-separated part to be a segment. The 256-byte identity limit is the documented one (`docs/testing/setup-03a/compatibility.md` 285-291).
- `CanonicalizeURL` and `ResolveOrg`: single-branch string functions.
- The ring buffer is a bounded first-in first-out queue whose reads still drain after the close; blocking writes become steps that wait.
- Delivery.EntityPublisher.PublishOne: sleeps are exact, and no time passes but in attempts and pauses; where the context ends at the very end of a pause either outcome is covered.
- Delivery.EntityPublisher.Send: the method sees one moment of the queue; waiting for room, and other threads, are in the machine of module `Publisher`.
- A publisher or component is started once; a restart after a completed Stop is not modelled.
- Joins registered with `JoinOnStop` and the wait for a watcher's channel: the watcher's stop is one step that may fail.
- Metrics, logs, edge-triggered conditions and status reports.
- The configs behind an instance name: a link's names are an unknown set, and a config is identified with the link it was built from. In the lemmas on suffixes the part of a name before the link's own slug depends on the URL and the first twelve bytes of the SHA, as it does for a link with a project, and the three sources' names begin with different letters.
- Subwatch.Watcher.Tick: that tracked instances stay put throughout is promised where a pass deletes nothing it means to keep (`Submodules.Safe`); what a healthy pass leaves is stated without it, and `Submodules.HoldsSurvivesIff` says when that is everything tracked.
- Configs left behind by a failed spawn or delete are not tracked by the source either, so no promise is made about them.
- Document gates by extension (`IsDocExtension`) and branch patterns are parameters.
- Entity identities and states inside an object-store result; the polling loop and its event channel.
- `contestedExtensions`, a guard for tests.
- Body offloading: a passage's storage may be refused, which rejects the ingest; keys and references are not modelled.
- DocEntities.StaleExactlyAboveCount: given distinct identities per ordinal; DocEntities.ChunkIDsDiffer says when they are.
