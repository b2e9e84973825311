# Kvist: a verified model

Kvist keeps vendored dependencies, immutable build caches and a terminal
reader for Markdown in one repository. This project models the parts that are
protocols, state machines or text transformations, and proves what each is for.
`dafny verify dfyconfig.toml` checks everything.

**Vendor publication** (`Vendor*.dfy`). Readers and publishers share one
`.kvist` directory. Every step is one filesystem action; any process may run
next, and each action may succeed, fail without effect, take effect and still
report an error, or be the last one before a kill. A check that accepts saw one
publication whose resolver binds every package and whose tree holds them all;
without the fence, public material is all old or all new; trees are conserved.
From the moment a publication has succeeded, on any run, until somebody writes
again, checks accept and a second, unforced publication reuses what is there
without writing. Whatever a publication finds, stale or broken, unless it is
fenced: if nobody disturbs it, it publishes what it has acquired. The commit
itself is also written as it runs (`VendorCommit`), every action logged as one
protocol step; which of them fail is an input, and it succeeds exactly when
none does and no fence is up. Beside it stand the tree walk with its budgets
(`TreeWalk`) and source replacement (`Resolver`).

**Generation store** (`Generation*.dfy`). The source tree may be edited between
any two reads: each walk is an arbitrary tree of observations and each copy may
yield any bytes. What is published is nevertheless exactly the manifest, within
every bound. The identity encoding decodes uniquely and ignores enumeration
order, and any number of promoters agree on what a name stands for. `promote`
is written as it runs (`GenerationBuild`), every action logged as a step of one
promoter among the others; which actions fail and what others publish
meanwhile are inputs, and it succeeds exactly when these let it.

**Terminal text** (`Sgr`, `Clip`, `Highlight`, `Wrap*`, `Inline*`, `Control*`,
`Transcod*`, `Output`, `Utf8`, `StreamInput`). The meaning of SGR is section
8.3.117 of ECMA-48 for the codes the renderer emits; the meaning of UTF-8 is
section 4 of RFC 3629. The clipper, the word wrapper, the SGR transcoder and
the streaming decoder are each written as they work and proved against a
definition that does not mention their cursors, spans or chunks. A wrapped page
reads as the calls asked: the same text, line ends, separators and indents,
and nothing else but wraps.

**Parsers** (`Html*.dfy`, `Tex*.dfy`). The HTML projector inverts a printer:
whatever way a tree is spelled, with character references, attributes and
letters of either case, its text comes out in the looks that its elements
mean. For the TeX projector, `TexGrammar` gives the trees of formulas, how each
is written and the text it stands for; the parser accepts exactly what such a
tree writes, and gives it that text.

**CPU accounting** (`Cpu*.dfy`). The tracker beside a kernel in which processes
start, run and end; what an ended process used may be credited to its parent
in part or be lost, and its children are adopted inside the tree or leave it.
CPU is counted in clock ticks.

Three promises do not hold of every input. Each has a condition that is met
exactly when the promise is:

- *A wrapped line stays within the page.* On every run of the writer this holds
  exactly when no word `Crosses`: `set_indent` has not moved text of no width
  at column 0 in front of a word that has room without the indent and none
  with it (`WrapExact.PagesAreTightExactlyWhen`).
  `WrapLaws.IndentAfterWidthlessText` gives an input. It is reachable through
  the writer's own interface only: the one caller of `set_indent`
  (blad/src/markdown.rs:705) has just pushed a visible list marker.
- *`CpuTracker` never reports more than the tree has used.* On every run this
  holds exactly when no sample went further beyond the own CPU it had seen than
  what is still unseen (`CpuSurplus.TotalExactlyWhen`), where a sample goes
  beyond by what was waited for in excess of the ended subtrees. The total is
  too large by at most what was credited past a living process
  (`CpuAccounting.TotalIsBetween`), and `CpuExamples.AdoptedOrphanCountsTwice`
  gives, for every amount, a run that is too large by just that amount.
- *`CpuTracker` reports exactly what the tree has used.* The same lemma says
  when. `CpuExact.OrderlyRunIsExact` proves it for runs in which processes wait
  for their children before they end, nothing is lost, and every sample shows
  all living processes; `CpuExamples.LivingOrphanHidesWaitedCpu` gives a run in
  which nothing is lost and nothing is missed, and the report falls short
  because a process ended before its child.

## Model

| member | source | states |
|---|---|---|
| VendorSafety.StepKeeps | dependencies/src/rust.rs:420-472 | every step of every process, whether it succeeds, fails, fails after taking effect or kills, keeps the protocol invariant: exclusive locks against leases, one owner of the operation lock, fenced progress |
| VendorSafety.RunKeeps | dependencies/src/rust.rs:474-656 | the invariant holds after every schedule, and everything that counts as published was installed by one process or was there at the start |
| VendorSafety.CheckSawOnePublication | dependencies/src/rust.rs:189-208 | a check that accepts a graph with external packages saw tree, resolver and receipt of one publication, whose receipt names the lockfile it checked |
| VendorSafety.UnfencedIsCoherent | dependencies/src/rust.rs:66-74 | whenever the recovery fence is absent, what is public was published together |
| VendorSafety.CommitIsAllOrNothing | dependencies/src/publication.rs:52-115 | at every prefix of a commit, killed or alive: without the fence all is old or all is new, a plain error means old, success means new |
| VendorSafety.TreesAreConserved | dependencies/src/publication.rs:39-115 | old and new tree are each in exactly one place until success, and after a publication error the old one is public or in the stage |
| VendorSafety.KeptStageSurvives | dependencies/src/publication.rs:85-115 | after a publication error the kept stage holds the old tree and control bytes, and at the end of any later run it is the stage it was |
| VendorReadiness.QuietCheckAccepts | dependencies/src/rust.rs:189-208 | among any other checks, a check of what serves its lockfile is refused only by the operating system or a changed lockfile, and after its twelve steps has accepted exactly what is public |
| VendorReadiness.SuccessIsQuiet | dependencies/src/rust.rs:474-656 | on every run, at the moment a publisher returns success, tree, resolver and receipt serve its lockfile, the fence is down and nobody is writing |
| VendorReadiness.PublicationThenCheck | dependencies/src/rust.rs:474-656 | after any run in which a publication succeeded and nothing was written since, the next check for its lockfile is refused only by the operating system or a changed lockfile, and accepts what was published |
| VendorReadiness.SecondRunReuses | dependencies/src/rust.rs:502-541 | where what is public serves its lockfile, an unforced publication among any checks never writes and never gets as far as the operation lock; without a failure it can only end by reusing |
| VendorReadiness.SecondRunEnds | dependencies/src/rust.rs:502-515 | such a publication comes to its end by the path before the lock, with the directory unchanged |
| VendorReadiness.PublicationThenReuse | dependencies/src/rust.rs:502-541 | after any run in which a publication succeeded and nothing was written since, a second unforced one acquires nothing and writes nothing, whatever fails |
| VendorContent.StepKeepsContents | dependencies/src/rust.rs:581-591 | every step keeps that readers have seen resolvers that bind and catalogued trees that hold every package, that publishers stage only such, and that a reusing publisher's own check has accepted |
| VendorContent.CheckSawEveryPackage | dependencies/src/rust.rs:189-208 | a check that accepts a graph with external packages saw a resolver that binds it and a tree that holds all its packages |
| VendorContent.ReuseSawOnePublication | dependencies/src/rust.rs:513-541 | a publisher that reuses has run a check for its own lockfile, and that check has accepted |
| VendorAcquired.AcquiredBinds | dependencies/src/rust.rs:582-583 | a configuration that parsed and bound when it was acquired binds, retargeted to the mount, what is published |
| VendorAcquired.AcceptedPackagesResolve | dependencies/src/rust.rs:120-133 | in the resolver that a check accepted, exactly one table binds each outside package, and it resolves to the mount |
| VendorAcquired.AcquiredIsPublished | dependencies/src/rust.rs:541-656 | where nobody else is at work and nothing is fenced or locked, whatever is public, stale or broken, a publication of what was properly acquired ends with something that serves its lockfile: what was there, untouched, if that did and the publication is not forced, and otherwise what it acquired |
| VendorUndisturbed.UndisturbedCheck | dependencies/src/rust.rs:76-208 | a check that nobody disturbs ends, and accepts exactly what serves its lockfile, or a project that needs nothing and has nothing; a running operation is reported, and anything else refused |
| VendorUndisturbed.UndisturbedPublication | dependencies/src/rust.rs:474-656 | a publication that nobody disturbs comes to its end: refused where something is fenced or locked, reusing exactly what serves its lockfile unless forced, and otherwise publishing what it acquired, if that binds and holds every package |
| VendorCommit.LogIsAllOrNothing | dependencies/src/publication.rs:52-115 | cut off after any action, a commit leaves all old or all new material unless the fence is up |
| VendorCommit.Commit.SaveControls | dependencies/src/publication.rs:24-51 | before the fence, the stage receives the old control bytes and nothing public changes |
| VendorCommit.Commit.MoveOldTree | dependencies/src/publication.rs:52-84 | the old tree moves from the public place to the stage, or stays, and the flag says which |
| VendorCommit.Commit.PublishNewTree | dependencies/src/publication.rs:52-84 | the staged tree becomes public, or nothing changes, and the flag says which |
| VendorCommit.Commit.Clear | dependencies/src/publication.rs:123-131 | lowering the fence succeeds exactly when both its actions do, or leaves the run on its way to raise it again |
| VendorCommit.Commit.Replace | dependencies/src/publication.rs:52-84 | between raising and lowering the fence: all three things are written exactly when no action fails, and untouched flags, exactly when the first failed, mean untouched material |
| VendorCommit.Commit.Recover | dependencies/src/publication.rs:85-115 | public material and stage stay as they are while the fence is put back, if it can be |
| VendorCommit.Commit.Run | dependencies/src/publication.rs:24-115 | success publishes the candidate with its controls, exactly when no action fails and no fence is up; a plain error, exactly when nothing was fenced or nothing moved and the fence came down, changes nothing; a publication error leaves the old tree in exactly one place, the old controls in the stage and the fence up if it can be; every action is a protocol step |
| TreeWalk.ValidateTree | dependencies/src/integrity.rs:258-350 | the explicit-stack walk with early cut-offs accepts exactly the trees whose recursive listing is within every limit, and ends on every tree |
| TreeWalk.Visit | dependencies/src/integrity.rs:277-347 | one entry is accepted only if the budgets still hold with it; a refusal means that the whole tree breaks a limit |
| TreeWalk.ListEntries | dependencies/src/fs.rs:184-204 | a listing is refused exactly when a name is unsafe or there are too many |
| TreeWalk.Refused | dependencies/src/integrity.rs:299-347 | an item that breaks a limit after what was visited makes the tree unacceptable |
| TreeWalk.ListingRefused | dependencies/src/integrity.rs:316-318 | cutting a directory off at the entries that are left refuses no acceptable tree |
| TreeWalk.PendingNext | dependencies/src/integrity.rs:276-325 | the frames on the stack stand for the rest of the recursive listing, in its order |
| Resolver.Retarget | dependencies/src/resolver.rs:170-184 | succeeds exactly for an acceptable destination and configuration, and replaces every directory and nothing else |
| Resolver.RetargetKeepsValidity | dependencies/src/resolver.rs:88-168 | a retargeted configuration is acceptable again: names, one-hop replacement, every directory referenced |
| Resolver.EverySourceResolvesToTarget | dependencies/src/resolver.rs:138-153 | after retargeting every source is read from the target, in at most one hop |
| Resolver.RetargetTwice | dependencies/src/resolver.rs:170-184 | only the last target counts |
| Resolver.Bind | dependencies/src/resolver.rs:186-249 | accepts exactly when published directories are the mount and every outside package has exactly one binding |
| Resolver.RetargetKeepsBinding | dependencies/src/rust.rs:582-583 | retargeting to the mount keeps every binding in both directions, so what is staged is fit to publish |
| Resolver.BoundPackageResolves | dependencies/src/resolver.rs:205-247 | each outside package is bound by one table, which resolves to the mount |
| Resolver.BoundByItsTable | dependencies/src/resolver.rs:186-245 | in an acceptable configuration, what binds a package is just the table that Cargo writes for it: the registry it was locked from, or its repository with its own branch, tag or revision |
| ResolverAccepts.VendoredIsAccepted | dependencies/src/resolver.rs:88-168 | what Cargo writes for any proper sources, all replaced by one directory, is accepted |
| ResolverAccepts.VendoredBinds | dependencies/src/resolver.rs:186-249 | and it binds every package from these sources by exactly one table |
| GenerationIdentity.FieldsReadBack | galla/src/cache.rs:1390-1393 | length-prefixed fields decode to the fields that were written |
| GenerationIdentity.IdentityReadBack | galla/src/cache.rs:1091-1126 | the field sequence decodes to its entries, modes, sorted sources and lockfile identities, even when a path reads "sources" |
| GenerationIdentity.IdentityBytesInjective | galla/src/cache.rs:1091-1126 | equal identity bytes mean equal entries, the same sources in some order, and equal lockfile identities |
| GenerationIdentity.SourceOrderIsIrrelevant | galla/src/cache.rs:1116-1120 | plans that list the same sources in different orders have one identity |
| StringOrder.SameArrangement | galla/src/cache.rs:1116-1117 | sorting the sources forgets their order and nothing else |
| GenerationOrder.SortIgnoresOrder | galla/src/cache.rs:691-708 | sorting lists with the same distinct entries gives the same list |
| GenerationListing.EntriesDistinct | galla/src/cache.rs:756-882 | a walk never lists a path twice |
| GenerationListing.EnumerationOrderIsIrrelevant | galla/src/cache.rs:1091-1126 | the identity does not depend on the order in which directories are enumerated, at any level |
| GenerationCollect.Collection.CollectDirectory | galla/src/cache.rs:756-882 | accepts exactly the trees that are sound and end within the counters' bounds, and lists exactly their entries |
| GenerationCollect.Collection.CollectEntry | galla/src/cache.rs:786-880 | one name: kinds, links, sizes, depth and the three counters, checked as they grow |
| GenerationCollect.CollectSource | galla/src/cache.rs:691-708 | the snapshot is the sorted listing, returned exactly when the walk accepts |
| GenerationTree.ReconcileManifest | galla/src/cache.rs:710-754 | accepts exactly when files and manifest agree in both directions, with sizes and checksums |
| GenerationTree.CollectNodes | galla/src/cache.rs:691-708 | a private tree is listed completely and sorted, exactly when it is within the bounds |
| GenerationWalk.WalkAgrees | galla/src/cache.rs:691-882 | the recursive walk of a private tree, in whatever order, accepts exactly when that listing does and returns that listing |
| GenerationTree.VerifiedIsExact | galla/src/cache.rs:913-1021 | a staged tree that lists as the snapshot, reconciles and is immutable is an exact generation |
| GenerationTree.ReuseSawSameContent | galla/src/cache.rs:1050-1077 | a tree that verifies to the expected identity holds exactly the expected entries, or two different encodings have one hash |
| GenerationBuild.Store.MakeImmutable | galla/src/cache.rs:1128-1192 | only modes change, to 0444 or 0555 by the execute bit; it succeeds exactly when every mode can be changed |
| GenerationBuild.Store.Inspect | galla/src/cache.rs:464-470 | succeeds exactly for a valid plan and an accepted source that agrees with the manifest, and returns its snapshot |
| GenerationBuild.Store.MakeStaging | galla/src/cache.rs:1450-1486 | the promoter arrives, with an empty stage or with an error |
| GenerationBuild.Store.FillStaging | galla/src/cache.rs:913-941 | an empty stage is left with exactly the directories and files of the snapshot, with the bytes and modes of the copies, exactly when every copy yields its file's bytes within the bound and nothing blocks a path |
| GenerationBuild.Store.StageVerified | galla/src/cache.rs:913-957 | fills the stage and reads the source again; succeeds exactly when that shows the same snapshot and the stage lists as it, which it then does |
| GenerationBuild.Store.Harden | galla/src/cache.rs:973-977 | the stage becomes immutable with its listing as it was, exactly when every mode can be changed and it is written through |
| GenerationBuild.Store.ReuseOrCollision | galla/src/cache.rs:1050-1077 | an existing generation is reused exactly when it can be read within the bounds and its listing has the expected identity; reuse, refusal and failure are the promoter's own step |
| GenerationBuild.Store.RenameIntoPlace | galla/src/cache.rs:987-1021 | the hardened tree gets its name exactly when it is fresh; a name taken meanwhile is compared, none is rebound, and it succeeds exactly when the rename does or what is there can be reused |
| GenerationBuild.Store.BuildAndPublish | galla/src/cache.rs:913-1021 | whatever the copies and the second walk saw, a fresh result is an exact generation under an unused name, and no published name changes; it succeeds exactly when the stage can be filled and verified and the name is free or holds this content |
| GenerationBuild.Store.RemoveStaging | galla/src/cache.rs:484-512 | the stage is gone and the result stays, or the stage stays and the result is the cleanup error |
| GenerationBuild.Store.Promote | galla/src/cache.rs:479-514 | succeeds exactly when plan, walks, copies and actions let it, and then reuses exactly when the name was taken; fresh results are exact; a leftover stage is reported; and from the accepted snapshot on, the run is a promoter's run in the store, ending in the verdict that the result is |
| GenerationBuild.UndisturbedIsPromotable | galla/src/cache.rs:479-1021 | a valid plan, an accepted source that agrees with the manifest and shows the same twice, faithful copies, no failing action, and nothing but this content under the name: then the promotion succeeds |
| GenerationPlan.AcceptedHasPlan | galla/src/cache.rs:516-673 | every source that a walk accepts has a valid plan that agrees with it: the one whose manifest lists its files, with bounds and provenance in range |
| GenerationStage.SnapshotIsTreelike | galla/src/cache.rs:756-882 | an accepted walk gives a snapshot in which every path has its directories, and which fits the bounds |
| GenerationStage.FilledLists | galla/src/cache.rs:913-941 | a stage filled with what was hashed lists as the snapshot |
| GenerationStore.StepKeeps | galla/src/cache.rs:479-514 | every step of every concurrent promoter keeps the store's invariant |
| GenerationStore.NamesAreNeverRebound | galla/src/cache.rs:987-1021 | a published name keeps its content for ever |
| GenerationStore.SuccessNamesOwnContent | galla/src/cache.rs:479-514 | a promoter that succeeds returns a name that holds its own content, unless it reuses and the hash has collided |
| GenerationStore.IdenticalPlansAgree | galla/src/cache.rs:479-514 | identical plans, their sources in any order, return the same name, at most one of them fresh |
| GenerationStore.DifferentContentIsRefused | galla/src/cache.rs:1050-1077 | other content under the name is refused, unless it collides |
| GenerationStore.NoStagingSurvives | galla/src/cache.rs:479-514 | no staging tree outlives a return, unless the return is the cleanup error |
| GenerationStore.ChainKeeps | galla/src/cache.rs:479-514 | a logged promotion, stopped after any action, has kept the store's invariant and every published name |
| GenerationStore.StepIsLocal | galla/src/cache.rs:479-514 | a promoter's step is possible, and does the same, whatever the other promoters are at |
| GenerationStore.OthersAreSeen | galla/src/cache.rs:987-1021 | whatever another promoter does, all that changes for this one is that a name may newly be published |
| Decimal.ValueOfPrint | galla/src/cache.rs:1105-1108 | printed sizes read back |
| Sgr.OverlayWins | blad/src/terminal_text.rs:174-183 | a style sent under an overlay and covered again leaves the overlay over the new source |
| Sgr.SaveFollows | blad/src/terminal_text.rs:245-300 | the saved state follows the terminal through every sequence the renderer emits |
| Sgr.RestoreRestores | blad/src/terminal_text.rs:302-307 | restoring brings any terminal state back to exactly the saved source state |
| Clip.Overlaps | blad/src/terminal_text.rs:229-239 | the moving cursor finds an overlap exactly when some range meets the columns, and never has to go back |
| Clip.Choose | blad/src/terminal_text.rs:184-190 | the active overlay if its ranges meet the grapheme, else the passive one, else none |
| Clip.SendGrapheme | blad/src/terminal_text.rs:198-212 | a whole grapheme is shown byte by byte in the source state at each byte under its overlay; styles inside do not split it |
| Clip.CutGrapheme | blad/src/terminal_text.rs:213-226 | a cut grapheme becomes blanks for exactly the columns it reaches into, and its styles are kept |
| Clip.ClipWithOverlays | blad/src/terminal_text.rs:143-227 | a terminal that receives the clip shows the window of the source line with its overlays and ends plain |
| Clip.WindowIsFilled | blad/src/terminal_text.rs:143-227 | the columns of the cells that the clip shows are exactly those of the line that lie in the window |
| Highlight.ColumnRanges | blad/src/terminal_text.rs:105-127 | a grapheme that takes columns is covered exactly when a byte range touches it |
| Highlight.RowRanges | blad/src/viewport.rs:223-238 | merged ranges lie apart, cover what the row's spans cover, and the cursor moves to the next row |
| Highlight.SearchSpans | blad/src/search.rs:66-84 | the spans of all rows are in order, and those of a row cover exactly what a match touches |
| Highlight.FrameRanges | blad/src/viewport.rs:170-185 | every row of a frame gets the ranges of its own spans |
| Highlight.MatchesAreHighlighted | blad/src/viewport.rs:183-192 | the clipper covers a grapheme exactly when a match touches it |
| WrapLaws.RunConserves | blad/src/inline.rs:53-243 | on every run, page and pending word hold what was pushed, in order, each byte with its style |
| WrapLaws.TextSplits | blad/src/inline.rs:136-145 | cutting one `text` call in two at any point changes nothing |
| WrapFlow.RunReads | blad/src/inline.rs:136-243 | on every run, at any width, the page reads as the calls ask, with wraps put in or in place of separators |
| WrapFlow.UnwrappedReads | blad/src/inline.rs:147-207 | where nothing had to wrap, the page reads exactly as asked: words with white space or a soft break between them are one separator apart, others are not |
| WrapFlow.UnboundedReads | blad/src/inline.rs:147-207 | without a width every run reads exactly as asked |
| WrapFlow.LinesAreKept | blad/src/inline.rs:164-167 | on every run, the line ends besides wraps are as many as were asked for, each behind just what had been pushed before it |
| WrapIndent.RunIsHeaded | blad/src/inline.rs:115-207 | on every run, each line with text begins with an indent or a prefix |
| WrapIndent.IndentsAreInForce | blad/src/inline.rs:115-207 | on every run, each indent on the page is the one last asked for, at most one column less than the page |
| WrapMeasure.RunIsMeasured | blad/src/inline.rs:53-67 | on every run, every piece on the page is written with its own width |
| WrapExact.PagesAreTightExactlyWhen | blad/src/inline.rs:185-243 | on every run, a line is wider than the page only with one grapheme or atomic word behind its indent or prefix, and no wrapped line ends in a separator, exactly when no word crosses |
| WrapExact.FlushReady | blad/src/inline.rs:185-243 | a flush of a word that does not cross keeps every line tight |
| WrapExact.FlushCrosses | blad/src/inline.rs:189-233 | a flush of a word that crosses, atomic or sliced, makes a line that is not tight |
| WrapLaws.IndentAfterWidthlessText | blad/src/inline.rs:132-134 | one input that crosses: an indent set while text of no width stands at column 0, then an atomic word |
| WrapBreaks.RunBreaksAreNeeded | blad/src/inline.rs:185-243 | on every run, each wrap is one where a flush began without room for its word, or where the next grapheme had no room; and every flush without room wraps |
| WrapLaws.FlushBreaksAreNeeded | blad/src/inline.rs:189-231 | from any state whose column is that of the page, a flush whose word has no room behind text wraps before it, and wraps elsewhere only before a grapheme without room |
| WrapLaws.SliceBreaksAreNeeded | blad/src/inline.rs:208-233 | inside a wide word, wherever it starts, lines break only before a grapheme that would not have fitted |
| WrapOptimal.GreedyStaysAhead | blad/src/inline.rs:185-243 | after every word, of text and code in any styles, the writer has used fewer lines than any other layout, or as many and fewer columns |
| WrapOptimal.FewestLines | blad/src/inline.rs:185-243 | when every word fits, atomic or not and however it was pushed, no layout of the same words that fits the page has fewer lines |
| InlineWriter.Word.Push | blad/src/inline.rs:54-67 | the spans stand for the bytes pushed, each with its style |
| InlineWriter.Word.WritePart | blad/src/inline.rs:69-88 | one moving span cursor writes exactly the bytes of each slice in their own styles |
| InlineWriter.CutAt | blad/src/inline.rs:212-218 | grapheme boundaries of a word and the bytes between them |
| InlineWriter.Writer.constructor | blad/src/inline.rs:100-109 | a writer starts empty, its page at least one column wide |
| InlineWriter.Writer.Place | blad/src/inline.rs:189-205 | break, indent and separator before a word, as the layout says |
| InlineWriter.Writer.SliceGrapheme | blad/src/inline.rs:219-229 | one turn of the slicing loop does what the layout says of one grapheme |
| InlineWriter.Writer.WriteSliced | blad/src/inline.rs:207-233 | a wide word is laid out grapheme by grapheme |
| InlineWriter.Writer.Flush | blad/src/inline.rs:185-243 | the pending word is laid out and the word is empty again |
| InlineWriter.Writer.AddText | blad/src/inline.rs:136-145 | pieces up to white space do what the characters one by one would do |
| InlineWriter.Writer.AddCode | blad/src/inline.rs:147-150 | code joins the word whole and makes it atomic |
| InlineWriter.Writer.BreakSoftly | blad/src/inline.rs:152-156 | flushes, and owes a separator |
| InlineWriter.Writer.Complete | blad/src/inline.rs:158-162 | flushes, and owes nothing |
| InlineWriter.Writer.BreakHard | blad/src/inline.rs:164-167 | flushes and starts a line |
| InlineWriter.Writer.Restart | blad/src/inline.rs:115-122 | takes the caller's prefix as the start of a line, the indent clamped to the page |
| InlineWriter.Writer.ChangeIndent | blad/src/inline.rs:132-134 | only the indent changes, clamped to the page |
| InlineStyle.WriteShows | blad/src/inline.rs:20-43 | styled text shows in its look and leaves a plain terminal plain |
| Theme.SelectSelects | blad/src/theme.rs:21-43 | the sequence selects one colour and leaves every other attribute alone |
| ControlText.TokensOfPrinted | blad/src/output.rs:105-134 | printed text and controls scan back to themselves |
| ControlText.ScanKeepsBytes | blad/src/output.rs:105-134 | what is scanned prints back to the bytes that were read |
| ControlText.ParamsOfPrinted | blad/src/output.rs:26-40 | printed parameters read back |
| Transcoding.Nearest | blad/src/output.rs:184-194 | the first palette entry at the least distance |
| Transcoding.FeedSplits | blad/src/output.rs:105-134 | feeding bytes in two parts is feeding them at once |
| Transcoding.TranscodeIsTokenwise | blad/src/output.rs:22-145 | accepted exactly when the text is complete and every control understood; the output is the encoding of each token |
| Transcoding.TokensOfOutput | blad/src/output.rs:22-145 | the output reads back as the encoded tokens of the input |
| TranscodingAccepts.UnderstoodExactlyWhen | blad/src/output.rs:42-101 | a control is understood exactly when its parameters are whole commands one after another: an attribute or basic colour, a palette index, or components, each in range |
| TranscodingAccepts.AcceptedExactlyWhen | blad/src/output.rs:104-145 | a text is accepted exactly when it is complete and, unless output is plain, every control is made of commands |
| TranscodingAccepts.RenderedIsAccepted | blad/src/output.rs:104-145 | whatever a renderer writes of text and commands is accepted, for every terminal |
| TranscodingLaws.TextIsKept | blad/src/output.rs:22-145 | the text between the controls never changes |
| TranscodingLaws.PlainIsText | blad/src/output.rs:22-25 | plain output is the text alone |
| TranscodingLaws.ScreenIsKept | blad/src/output.rs:26-102 | every byte keeps all attributes at true-colour depth, and all but the colours at the other depths |
| TranscodingLaws.NoColorIsShown | blad/src/output.rs:69-70 | at depth none, and in plain output, no byte is ever coloured |
| TranscodingLaws.SelectHasShade | blad/src/theme.rs:21-43 | whichever of its encodings a palette colour gets, reading it back gives that colour |
| TranscodingLaws.ColorIsNearest | blad/src/output.rs:44-93 | at 16 and 256 colours a colour becomes one that no other colour of the palette is closer to, for the same layer |
| TranscodingColors.ColorsAreClosest | blad/src/output.rs:24-106 | at 16 and 256 colours, every byte in a default colour keeps it, every byte in a selected colour, however it was selected, shows in one of the palette that no other is closer to on the same layer, and a selection the terminal understands stays as it is |
| TranscodingColors.OwnShadeIsKept | blad/src/output.rs:42-100 | a colour that the palette has shows in its own shade |
| TranscodingLaws.TranscodingIsIdempotent | blad/src/output.rs:22-145 | re-encoding what was re-encoded is accepted and changes nothing |
| Output.Output.WriteExtended | blad/src/output.rs:44-93 | an extended colour is written at the terminal's depth, or nothing when it is not one |
| Output.Output.WriteSelection | blad/src/output.rs:42-100 | one selection of a control, and how many parameters it took |
| Output.Output.Sgr | blad/src/output.rs:22-102 | a control is written as far as it is understood |
| Output.Output.Collect | blad/src/output.rs:115-131 | one byte of a control that is being collected |
| Output.Output.Write | blad/src/output.rs:105-134 | copying text in stretches does what feeding byte by byte would do, refusals included |
| Output.WriteChunks | blad/src/output.rs:104-145 | however a text is cut into writes, output and acceptance are those of the whole |
| Utf8.LeadIsGrammatical | blad/src/stream_input.rs:192-195 | a character at the front is recognised exactly when the grammar has one there |
| Utf8.PartialCompletes | blad/src/stream_input.rs:192-195 | a partial character has at most three bytes and can be completed |
| Utf8.BadStaysBad | blad/src/stream_input.rs:192-195 | an error stays one, whatever follows |
| Utf8.ValidExactlyWhenScanned | blad/src/stream_input.rs:192-195 | bytes are UTF-8 exactly when the scan reaches their end |
| Utf8.LongestValidPrefix | blad/src/stream_input.rs:192-199 | the scanned prefix is valid and no longer one is |
| Utf8.ScanResumes | blad/src/stream_input.rs:191-199 | scanning can be taken up again after any valid prefix |
| Utf8.ErrorIsFinal | blad/src/stream_input.rs:200-203 | past an error, more bytes change nothing |
| Utf8.ErrorsAreHopeless | blad/src/stream_input.rs:192-203 | the scan meets an error exactly when no further bytes could make a text of what was read |
| StreamInput.PendingIsShort | blad/src/stream_input.rs:183-205 | source and pending are the bytes received, and at most three are pending |
| StreamInput.InputBuffer.Push | blad/src/stream_input.rs:183-205 | the buffer is the scan of everything taken; the limit and a decoding error are told apart |
| StreamInput.InputBuffer.Finish | blad/src/stream_input.rs:207-216 | succeeds exactly when all bytes taken are UTF-8 |
| StreamInput.DecodeChunks | blad/src/stream_input.rs:183-216 | any chunking succeeds exactly when the whole is UTF-8, and the source is the longest valid prefix either way |
| StreamInput.StdinStream.Stop | blad/src/stream_input.rs:60-65 | only a live stream stops; other states stay |
| StreamInput.StdinStream.Turn | blad/src/stream_input.rs:119-160 | one poll and read: what was taken and the state are exactly what the event makes of them, live as long as the bytes taken begin a text within the limit; the revision counts changes of the source |
| StreamInput.StdinStream.PumpFrom | blad/src/stream_input.rs:114-163 | at most four turns, each after a read that leaves the stream live; bytes and source only grow, ended and failed states stay, and true asks for another pump of a live stream |
| StreamInput.StreamEndsWell | blad/src/stream_input.rs:114-163 | however a stream arrives, at its end it has ended well exactly when all that was sent is within the limit and UTF-8, and then all was taken; otherwise the error says whether it is cut off in a character, too large or no text |
| HtmlText.FindTokenEnd | blad/src/html.rs:149-164 | the offset loop finds the end that the recursive reading of quotes and comments gives |
| HtmlText.CheckAttributes | blad/src/html.rs:190-223 | the loop accepts exactly lists of proper attributes |
| HtmlText.DecodeEntities | blad/src/html.rs:225-270 | copying between references decodes each reference once and keeps the rest |
| Html.TurnKeepsState | blad/src/html.rs:36-146 | one turn keeps at most 64 open inline elements |
| Html.ProjectionKeepsState | blad/src/html.rs:36-146 | on any input the stack never passes its bound and holds inline elements only |
| Html.RawTurn | blad/src/html.rs:40-73 | in raw text every turn advances the cursor within the input |
| Html.OneTurn | blad/src/html.rs:36-146 | on any input every turn advances the cursor within the input |
| Html.Html.Style | blad/src/html.rs:22-34 | the look is the union of what the open elements give |
| Html.Html.ProjectRaw | blad/src/html.rs:40-73 | one turn inside a raw-text element |
| Html.Html.ProjectToken | blad/src/html.rs:85-143 | one tag or other token |
| Html.Html.Project | blad/src/html.rs:36-146 | the cursor loop gives the projection of the whole input and keeps the bound on the stack |
| HtmlPrint.SpelledTextReadsBack | blad/src/html.rs:225-270 | text reads back as its characters, however each is written, plainly or as any named, decimal or hexadecimal reference, whatever comes after it |
| HtmlPrint.AttributesRead | blad/src/html.rs:190-223 | every list of attributes, bare, quoted either way or with an unquoted value, is accepted, with or without a closing slash |
| HtmlPrint.OpenIsTag | blad/src/html.rs:166-188 | an opening tag with any attributes is read as one, with its name and whether it closes itself |
| HtmlPrint.CloseIsTag | blad/src/html.rs:166-188 | a closing tag is read as one |
| HtmlRoundTrip.LookIsMeant | blad/src/html.rs:22-34 | the look of the open elements is what they mean, name by name: `b`, `strong` and `summary` are bold, `i` and `em` italic, `s`, `strike` and `del` struck, `code`, `kbd` and `samp` reversed |
| HtmlRoundTrip.TextProjects | blad/src/html.rs:74-80 | written text comes out as its characters in the look that the open elements mean, and leaves the rest as it would have been |
| HtmlRoundTrip.BlockProjects | blad/src/html.rs:104 | either tag of a block, in letters of either case and with any attributes, makes one boundary and leaves the styles alone |
| HtmlRoundTrip.VoidProjects | blad/src/html.rs:102-103 | a break or a rule is one mark where it stands |
| HtmlRoundTrip.CommentProjects | blad/src/html.rs:90-98 | a comment is kept as it is written, or dropped when markup is stripped |
| HtmlRoundTrip.OtherProjects | blad/src/html.rs:130-143 | so is a tag of an unknown name, or one that opens and closes nothing |
| HtmlRoundTrip.OddProjects | blad/src/html.rs:105-129 | an inline tag that closes what is not innermost under that name, closes itself, or would open one element too many leaves the stack alone and is shown or dropped |
| HtmlRoundTrip.RawProjects | blad/src/html.rs:40-73 | raw text comes out as it stands up to its own end tag, past whatever only looks like one, and is not read for tags or references |
| HtmlRoundTrip.BorderProjects | blad/src/html.rs:104 | a single tag of a block makes a boundary, whether or not it has a partner |
| HtmlRoundTrip.LooseProjects | blad/src/html.rs:90-98 | what stands in angle brackets and is no tag is shown as it is; only declarations are stripped |
| HtmlRoundTrip.EndingProjects | blad/src/html.rs:40-87 | a token or raw text that does not end is shown as it stands, and raw text is still open afterwards |
| HtmlRoundTrip.NodeProjects | blad/src/html.rs:36-146 | the print of any node projects to its meaning |
| HtmlRoundTrip.TreeProjects | blad/src/html.rs:36-146 | a printed tree of inline elements, blocks, breaks, rules, comments, raw text and tags that mean nothing, in front of anything, projects to its meaning in front of the projection of that |
| HtmlRoundTrip.ProjectingWhatIsPrinted | blad/src/html.rs:36-146 | printing and projecting is the identity: the text, each character in the union of what the elements around it mean, block edges, breaks and rules in their places, what is left open at the end as it stands, and the stack as it was |
| TexBrackets.BalancedEnclosed | blad/src/math.rs:219-233 | what stands between matching brackets nests one level deeper |
| TexBrackets.ScanInside | blad/src/math.rs:142-233 | nesting does not depend on what is open outside |
| TexPrinted.ItemsArePrinted | blad/src/math.rs:142-217 | what is read is a proper formula, written just as it was read: commands end where no letter follows, at most one script of each kind hangs on what is not blank, and every level is within bounds |
| TexPrinted.CommandIsPrinted | blad/src/math.rs:264-306 | so is every command with its arguments |
| TexRoundTrip.ItemsAreRead | blad/src/math.rs:142-217 | every proper formula, written down in front of its stop, is read back as itself, and nothing beyond |
| TexRoundTrip.AtomIsRead | blad/src/math.rs:235-254 | so is every atom, whatever comes after it that does not lengthen its name |
| TexRoundTrip.ScriptsAreRead | blad/src/math.rs:169-205 | so are scripts, with blanks before and after their marks |
| TexRoundTrip.PiecesAreRead | blad/src/math.rs:308-344 | so is literal text, its braces nested and its escapes undone |
| TexRoundTrip.ReadsWhatIsProper | blad/src/math.rs:142-217 | a text is read exactly when some proper formula is written so, and then that formula is what is read |
| TexRoundTrip.TreesAreUnique | blad/src/math.rs:142-217 | no text has two proper trees |
| TexPromises.EndsAtGaps | blad/src/math.rs:206-213 | nothing but blanks is left before the stop exactly when only blanks will be read, so a fraction goes without parentheses exactly when it stands alone |
| Tex.Append | blad/src/math.rs:119-125 | output grows up to 65,536 bytes and is refused beyond |
| Tex.Parser.Enter | blad/src/math.rs:111-117 | the only way into a level refuses every level beyond 32 |
| Tex.Parser.Fraction | blad/src/math.rs:280-287 | reads two braced arguments, exactly when they are there and the text fits, and gives the first over the second |
| Tex.Parser.Root | blad/src/math.rs:288-296 | reads a braced radicand, exactly when it is there and the text fits |
| Tex.Parser.Delimiter | blad/src/math.rs:346-376 | reads a delimiter exactly when one is there, past blanks and brackets that are escaped, and opens nothing |
| Tex.Parser.LiteralText | blad/src/math.rs:308-344 | reads literal text to the brace that matches its first exactly when that is there within the levels left, and gives its characters |
| Tex.Parser.GroupArgument | blad/src/math.rs:219-233 | reads a braced argument to its own closing brace, exactly when there is one that is not blank, and gives its text |
| Tex.Parser.Atom | blad/src/math.rs:235-254 | reads an atom exactly when one is there and its text fits; what it reads nests within the levels left |
| Tex.Parser.Command | blad/src/math.rs:264-306 | reads a command with its arguments exactly when one is there and its text fits |
| Tex.Parser.Paired | blad/src/math.rs:378-399 | reads everything from `\left` to the matching delimiter of its own `\right`, exactly when that is there and its text fits |
| Tex.Parser.Scripts | blad/src/math.rs:169-205 | reads the scripts after an atom, at most one of each kind, and gives the atom with them, in parentheses if it needs them |
| Tex.Parser.Expression | blad/src/math.rs:142-217 | ends on every input; reads a formula up to its stop exactly when one is there and its text fits, and gives that text |
| Tex.Project | blad/src/math.rs:67-80 | accepts exactly what some proper formula within 32 levels writes, if it is not blank and its text is within bounds, and gives it that text, trimmed; what is accepted nests |
| CpuForest.TreeIsEverything | tools/profile_tests.py:61-71 | the tree of the root holds every lifetime exactly once |
| CpuForest.KernelKeeps | tools/profile_tests.py:56-57 | whatever is credited, lost or adopted, waited CPU never exceeds the CPU of processes that ended below with nobody living in between and what was credited past somebody living |
| CpuTracker.ObservedAt | tools/profile_tests.py:46-57 | a sample raises the counters of its lifetimes, keeps their first parent, and leaves the others |
| CpuTracker.UpdateNeverFalls | tools/profile_tests.py:46-79 | the total never falls and never falls short of the own CPU that was seen |
| CpuTracker.CpuTracker.constructor | tools/profile_tests.py:41-44 | a tracker starts with nothing seen |
| CpuTracker.CpuTracker.Update | tools/profile_tests.py:46-79 | the loops over a sample give the new ledger, total and regressions of the whole update |
| CpuAccounting.TotalIsBounded | tools/profile_tests.py:61-71 | the recursive total never exceeds what can have been counted below a lifetime |
| CpuAccounting.SampleKeeps | tools/profile_tests.py:46-79 | a sample of living processes, each with the parent it has now, keeps the ledger right and the total bounded, and the recursion ends |
| CpuAccounting.EventKeeps | tools/profile_tests.py:46-79 | whatever the processes do between samples keeps the bound |
| CpuAccounting.TotalIsBetween | tools/profile_tests.py:46-79 | at every point of every run the total is at least the own CPU ever seen, and exceeds the true CPU by at most what was credited past living processes |
| CpuAccounting.TotalIsAtMostTrue | tools/profile_tests.py:46-79 | unless CPU is credited past a living process the total never exceeds the true CPU, whatever else is lost |
| CpuAccounting.TotalNeverFalls | tools/profile_tests.py:46-79 | the total never falls along a run |
| CpuExact.OrderlyKeeps | tools/profile_tests.py:68-70 | when processes wait for their children before they end, waited CPU accounts for all that ended |
| CpuExact.CompleteSampleIsExact | tools/profile_tests.py:46-79 | a complete sample of such a tree gives exactly the CPU it has used |
| CpuExact.OrderlyRunIsExact | tools/profile_tests.py:46-79 | along a run of orderly events and complete samples, every sample reports exactly the CPU used |
| CpuExact.WaitedRootIsExact | tools/profile_tests.py:73-79 | once the root has ended, the CPU its parent waited for gives exactly the total |
| CpuSurplus.TotalIsOwnAndSurplus | tools/profile_tests.py:61-71 | the nested recursion adds up to all own CPU and, once each, what a process waited for beyond its ended subtrees |
| CpuSurplus.TotalExactlyWhen | tools/profile_tests.py:46-79 | on every run the total is the CPU used, less what is unseen, plus the furthest a sample went; so it is within the true CPU, or equal to it, exactly when that is at most, or just, what is unseen |
| CpuSurplus.RegressionsAreFalls | tools/profile_tests.py:73-75 | on every run the regressions counted are the samples at which the own CPU seen, with what the sample went beyond it, had fallen below the total |
| CpuExamples.AdoptedOrphanCountsTwice | tools/profile_tests.py:61-71 | for every amount, a run in which an adopted orphan is waited for past a living process and the total is too large by that amount |
| CpuExamples.LivingOrphanHidesWaitedCpu | tools/profile_tests.py:61-71 | a run with nothing lost and every sample complete in which the total falls short |
| CpuDescendants.Descendants | tools/profile_tests.py:82-92 | selects exactly the processes from which one can climb to the root, and ends even on circular parents |

## Left out

- VendorSafety.CheckSawOnePublication: for the default destination; with another one, `check` looks elsewhere (dependencies/src/rust.rs:211-224).
- VendorReadiness.PublicationThenCheck: which resolver texts bind a lockfile and which trees hold its packages are parameters of the lockfile; `VendorAcquired.Means` ties the first to `Resolver`, and the walk of `catalogue` through package manifests is not modelled.
- VendorSafety.KeptStageSurvives: a stage is private to its publisher, as its random name makes it; nobody is modelled who would go into another's stage.
- Cancellation, clocks and input or output errors are failing steps of the vendor protocol; re-reads of the lockfile are such steps as well.
- The contents of packages, Cargo itself, and `catalogue` beyond its acceptance step are not modelled.
- GenerationTree.ReuseSawSameContent: says nothing of write bits, which the identity does not contain.
- GenerationBuild.Store.Promote: `Synced` on a reused generation does not stand for a sync; the code returns it without one (galla/src/cache.rs:1068-1076).
- GenerationBuild.Store.BuildAndPublish: the staging tree is private, published generations are not tampered with, and removing a stage is one step.
- GenerationTree.CollectNodes: walks the flat listing of a private tree's paths, and does not say which bound was exceeded; `GenerationWalk` ties it to the recursive walk.
- Root overlap checks, descriptor-relative opening and removal of stages are operating-system plumbing and are not modelled.
- Clip.ClipWithOverlays: for the SGR codes the renderer emits; saved state is not faithful for others, such as 5 and 25. Parsing a line into styles (`TerminalLine::new`), tabs and inert controls are left out.
- Highlight.ColumnRanges: graphemes of no width are left open, as an overlay on them depends on their neighbours.
- InlineWriter.Writer.Flush: the width of a word is the sum of the widths of its graphemes, sums do not saturate, and `set_width` between paragraphs is left out.
- Output.Output.Write: bytes are characters, and a failing terminal is left out.
- StreamInput.StdinStream.PumpFrom: poll and read are events; descriptor flags, waiting and refresh timing are left out.
- TreeWalk.ValidateTree: the tree does not change during the walk; syncing, identity re-checks and names that are not UTF-8 (treated as unsafe names) are left out.
- Resolver.Retarget: TOML text is its decoded tables and its length, URL safety is a parameter, and the length of the rewritten text is checked by the next parse.
- Html.Html.Project: joining adjacent HTML events line by line is left out.
- Tex.Project: the symbol table, whose symbols fit the output, and the script glyphs are parameters, error messages are their kinds, and which error a refused formula gets is not specified.
- CpuAccounting.TotalIsBetween: ending and being waited for are one event, so a process that has ended unwaited still counts as living; CPU is counted in ticks, and iteration over entries is in birth order.
- `low_cpu_intervals` and `parse_stat` are single passes over a list and a line, and sampling `/proc` is input; none is modelled.
- Painting rows, the gutter loop, search stepping and tab history keep no state that the parts above depend on, and are not modelled.
- Sandboxing, networking, process supervision, editors and browsers are not part of this model.
