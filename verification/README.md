# PDF tools backend: verified model

A Dafny model of the algorithms and protocols at the core of the PDF-tools backend, with
proofs of what they promise. `dafny verify dfyconfig.toml` checks all of it.

**Watermark remover** (`Matrices`, `Content`, `GraphicsState`, `Filter`,
`FilterTheorems`, `Verdicts`, `Preservation`, `Idempotence`, `Sink`, `Scan`,
`Agreement`, `FormGraph`, `FormWalk`, `PageWalk`, `Watermarks`). A content stream is a
sequence of operators, a document a set of pages and a graph of XObjects. Two passes
interpret the streams: the analysis reports the traits of every text block and image to
a sink, which decides what counts as a watermark; the rewrite walks the streams again
and drops it. Both loops are imperative and proved equal to independent descriptions:
the rewrite to a division of the stream into contiguous segments with a verdict each,
the analysis to a list of observations. On these descriptions the theorems are proved:
what is deleted, that nesting and the state of every kept operator survive, that a
second pass finds nothing, that the two interpreters agree, and that the walk over the
possibly cyclic form graph, which prunes dictionaries on the way, rewrites exactly the
reachable forms, once each, under the plans they inherit. `Watermarks` composes analysis
and rewrite. The graphics-state stack is described by ISO 32000-1, sections 8.4.2 and
8.3.4, text objects by section 9.4 and marked content by section 14.6.

**Office pool** (`PoolHealth`, `PoolProtocol`, `PoolOutcomes`). The crash score and the pool
globals as a class, and the locking protocol as a state machine in which each lock operation
or shared access is one step and any thread, server death and start-up outcome may come next.

**Uploads** (`Uploads`). Streaming writes under a cap and a shrinking batch budget, with the
rollback of disk and rows.

**Jobs** (`Jobs`). One job row from submission through a worker's run, whatever the
processor does, to expiry, and every sequence of such events.

**Smaller algorithms**: archive names (`ZipNames`, `Decimals`), OOXML property order
(`PropertyOrder`), the parallel map over inputs (`ParallelMap`), page selections and page
operations (`PageSelection`, `PageItems`, `PageOps`), and chunked rendering (`RenderChunks`).

Loops over mutable state are methods, often on classes; each is tied to a specification
function or predicate about which the lemmas are proved. Modules open with what they stand
for. Font metrics and geometry that the code computes in floating point are real-valued or
uninterpreted.

## Where the code does not meet its description

Each of these is a lemma or a clause of a contract, with the exact condition:

- Rewriting preserves the state of kept operators exactly when every stretch of dropped
  content in front of kept content restores the state (`RewritePreservesMeaning`), and is
  idempotent exactly when every kept text block stays kept under the state the output gives
  it (`FilterIsIdempotent`). Dropping a text block that contains `gs` can break both
  (`LeakyBlockChangesMeaning`, `LeakyBlockIsNotIdempotent`).
- The rewrite fails as a whole exactly when, at some page: the stream cannot be decoded; an
  entry of the page, or of a form reachable from it, refers to nothing; or the page's
  dictionary lists a doomed image, is not pruned yet, and is also the dictionary of a form
  reachable from the page, so that pruning shrinks a dictionary that is being iterated
  (`RewritePages`, `SharedDictionaryTrips`).
- A stream whose dictionary was pruned before keeps exactly its draws of doomed images
  (`PrunedDrawIsKept`). The output draws a doomed image, whose entry is gone, exactly when the
  stream draws it by itself after such a pruning or inside a kept text block
  (`DanglingDrawIff`).
- The docstring of the property re-sort says unrecognised tags keep their relative position.
  Two of them do exactly when the earlier one's key is not above the later one's; a second
  unrecognised tag after a recognised one always overtakes the first
  (`UnrecognisedKeepOrderIff`, `SecondFollowerOvertakes`).
- A batch upload is documented as atomic. When it fails, the disk is as before exactly unless
  the first file to fail does so when its row is flushed: that file then stays
  (`UploadFiles`).
- A submitted job ends completed or failed exactly when its dispatch raises or it is delivered
  and its processor does not end in something `except Exception` misses (`CreatedJobsEnd`).
  A dispatch error after an inline run overwrites a completed job
  (`LateDispatchErrorOverwrites`), and a failed job may keep some output links
  (`FailedKeepsOutputsIff`).
- Chunked rendering fails where serial rendering succeeds exactly when the caller's page count
  is so high that the last chunk starts past the end of the document (`RenderAuto`).
- The parallel map may raise another input's error than the sequential loop
  (`ErrorsMayDiffer`). The two agree for every completion order exactly when all failing
  operations carry the same error (`ErrorsAgreeIff`).
- A crashed conversion is reported as one on which LibreOffice died on both attempts
  (app/utils/office_pool.py:71). There is one attempt: it starts on a server alive at that
  check or just started for the slot (`ConversionStartsHealed`), its thread does not convert
  again before it has left the pool (`CrashIsNotRetried`), and a run shows a conversion
  abandoned after one crash while the pool is still enabled (`CrashAbandonsConversion`).

## Model

| member | source | states |
|---|---|---|
| `Matrices.MulActsInOrder` | app/utils/pdf_security.py:131-142 | the product of two matrices acts on every point as the first, then the second |
| `Matrices.ActionDeterminesMatrix` | app/utils/pdf_security.py:131-142 | a matrix is determined by its action, so the law of action leaves the product no choice |
| `Matrices.MulAssociative` | app/utils/pdf_security.py:131-142 | composition of transformations is associative |
| `Matrices.MulIdentity` | app/utils/pdf_security.py:131-142 | the identity is neutral on both sides |
| `Matrices.DetMultiplies` | app/utils/pdf_security.py:131-147 | determinants multiply |
| `Matrices.ScaleComposes` | app/utils/pdf_security.py:145-147 | scale factors of composed matrices multiply |
| `Matrices.ScaleUnique` | app/utils/pdf_security.py:145-147 | the scale factor, the non-negative root of the absolute determinant, is unique |
| `GraphicsState.TrackedMatrixIsLiveProduct` | app/utils/pdf_security.py:425-441 | at every point of any stream the tracked matrix is the ordered product of exactly the `cm` matrices not undone by a matching `Q`; unmatched `Q` are ignored |
| `GraphicsState.UndoneIffEnclosed` | app/utils/pdf_security.py:425-441 | a `cm` is undone exactly when a matching `q`/`Q` pair encloses it |
| `GraphicsState.StackHoldsLevels` | app/utils/pdf_security.py:425-441 | the stack has the nesting depth as its height and every saved matrix is the product of the operators live at its level |
| `GraphicsState.TrackedAlphaIsLive` | app/utils/pdf_security.py:434-443 | at every point of any stream the tracked alpha is what exactly the `gs` operators not undone by a matching `Q` leave, in order |
| `GraphicsState.AlphaEntryDecides` | app/utils/pdf_security.py:220-237 | a present fill entry decides, even when malformed; the stroke entry counts only without one; otherwise the alpha stays |
| `GraphicsState.SelfContainedIsNeutral` | app/utils/pdf_security.py:597-605 | operators that change the state only between their own saves and restores leave stack, matrix and alpha as they found them |
| `Filter.FilterOperations` | app/utils/pdf_security.py:555-673 | the single pass with skip counter, text buffer and stack returns exactly the summary of the stream's segments and verdicts: kept operators, removals and user hits |
| `Filter.DropsDraw` | app/utils/pdf_security.py:650-667 | whether one `Do` or inline image is dropped: a watermark layer when layers are stripped, or an image whose digest was detected |
| `Verdicts.TextBlockVerdict` | app/utils/pdf_security.py:632-646 | a text block is dropped for the user's text exactly when it is closed and what its operators show contains that text, blanks and case aside; else as detected exactly when what it shows is a needle and it, or the plan's hints, carry a trait; no other text block is dropped |
| `Verdicts.TraceMeaning` | app/utils/pdf_security.py:626-631 | the traits of a block: the text its operators show, whether any of it is drawn diagonally under the last text matrix and the current matrix, and the least alpha at its BT or under which it shows text |
| `Verdicts.NormaliseConcat` | app/utils/pdf_security.py:99-101 | the comparison form is taken character by character |
| `Verdicts.NormaliseChar` | app/utils/pdf_security.py:99-101 | blanks vanish, capitals become small, everything else stays |
| `Verdicts.StrippedSegment` | app/utils/pdf_security.py:609-617 | a segment is stripped exactly when it opens with the BDC of a watermark artifact or, when layers are stripped, of a watermark layer; it ends with the EMC that closes it, or with the stream |
| `Verdicts.StripsIff` | app/utils/pdf_security.py:167-207 | which properties mark content: an artifact of subtype /Watermark or mentioning a watermark in its name, a layer or one of its members mentioning one |
| `Verdicts.DrawDroppedIff` | app/utils/pdf_security.py:650-662 | a named draw is dropped exactly when the name belongs to an object on a watermark layer, if layers are stripped, or to a condemned image |
| `Verdicts.OtherOperatorsDropped` | app/utils/pdf_security.py:663-669 | of all other single operators exactly the condemned inline images are dropped |
| `Verdicts.CountsAreSegments` | app/utils/pdf_security.py:588-673 | the counts returned are the numbers of segments dropped, and dropped for the user's text |
| `FilterTheorems.SegmentsCoverStream` | app/utils/pdf_security.py:588-673 | the segments are non-empty and together are the stream, in order |
| `FilterTheorems.FilterDeletesSegments` | app/utils/pdf_security.py:588-673 | the output is the input without exactly `removed` disjoint non-empty contiguous cuts, the rest in order, nested or not |
| `FilterTheorems.RemovedZeroIffUnchanged` | app/utils/pdf_security.py:747-750 | nothing was removed if and only if the output equals the input; user hits never exceed removals |
| `FilterTheorems.DroppedIsBalanced` | app/utils/pdf_security.py:589-594 | in a properly nested stream each dropped segment closes every bracket it opens and no other |
| `FilterTheorems.FilterPreservesNesting` | app/utils/pdf_security.py:588-673 | a stream properly nested in q/Q, BT/ET and BDC-or-BMC/EMC stays properly nested |
| `Preservation.RewritePreservesMeaning` | app/utils/pdf_security.py:588-673 | every kept operator runs under the same matrix, alpha and stack in the output as in the input if and only if every stretch of dropped segments in front of a kept one, as a whole, restores the state it found |
| `Preservation.SelfContainedRestores` | app/utils/pdf_security.py:588-673 | it does when every dropped segment changes the state only between its own saves and restores |
| `Preservation.NestedRewritePreservesMeaning` | app/utils/pdf_security.py:588-673 | on properly nested streams it is enough that removed marked content changes the state only inside q..Q and removed text blocks contain no gs, q, Q or cm |
| `Idempotence.FilterIsIdempotent` | app/utils/pdf_security.py:588-673 | nested or not, a second pass with the same plan removes nothing and returns its input if and only if every kept closed text block is still kept when judged under the state of the output before it |
| `Idempotence.RestoringTextIsIdempotent` | app/utils/pdf_security.py:588-673 | it is enough that every dropped text block restores the tracked state, whatever else is dropped |
| `Idempotence.SegmentRecurs` | app/utils/pdf_security.py:588-673 | a kept segment is found again, whole, whatever state it is met in and whatever kept content follows; only the verdict on a closed text block can change |
| `Preservation.LeakyBlockDropped` | app/utils/pdf_security.py:604-605 | a dropped text block's `gs` still changes the alpha the pass tracks afterwards |
| `Preservation.LeakyBlockChangesMeaning` | app/utils/pdf_security.py:604-605 | a concrete stream on which dropping a block with `gs` makes a kept operator run under another alpha |
| `Idempotence.LeakyBlockIsNotIdempotent` | app/utils/pdf_security.py:604-605 | a concrete stream on which a second pass removes more |
| `Sink.SightingsSound` | app/utils/pdf_security.py:287-299 | the sightings of a string are exactly the recorded observations of it |
| `Sink.TextRecordMeaning` | app/utils/pdf_security.py:287-305 | a text record holds exactly the pages, the counts per page and the strength of the recorded sightings of its string |
| `Sink.DrawsSound` | app/utils/pdf_security.py:307-348 | the draws of an image are exactly the observations of it |
| `Sink.ImageRecordMeaning` | app/utils/pdf_security.py:307-348 | an image is recorded exactly when it was drawn; its record holds exactly the pages, the counts per page, and each trait exactly when some draw showed it |
| `Sink.ImageRuleMeaning` | app/utils/pdf_security.py:376-393 | the image rule in terms of the draws: a diagonal one; a transparent one together with a centred one, a big one or three on one page; or enough pages, a centred and a big one |
| `Sink.HintMeaning` | app/utils/pdf_security.py:350-353 | a form is hinted exactly when it was drawn; the hint is the least alpha over its draw sites, at most 1, and whether any was diagonal |
| `Sink.TextRuleMeaning` | app/utils/pdf_security.py:369-375 | the text rule in terms of the observations: a strong sighting, three on one page, or sightings on enough pages |
| `Sink.TextCandidateIff` | app/utils/pdf_security.py:369-375 | a string is a candidate exactly when it was recorded, and was strong once, sighted three times on a page, or sighted on at least two and at least half of the pages |
| `Sink.RecordedAndStrongMeaning` | app/utils/pdf_security.py:290-305 | the thresholds for text: 2 to 80 characters, alpha below 0.999, sizes 24 and 30 |
| `Sink.CentredAndBigMeaning` | app/utils/pdf_security.py:316-348 | an image is centred when its corners surround the middle of the page and it covers at most 0.9 of it, big when it covers between 0.15 and 0.9 of it |
| `Sink.FullPageImageSurvives` | app/utils/pdf_security.py:324-331 | an image whose draws are never diagonal, always cover more than 0.9 of the page and occur at most twice a page is no candidate |
| `Sink.DetectionSink.Text` | app/utils/pdf_security.py:287-305 | adds one text observation; the records stay those of the history |
| `Sink.DetectionSink.Image` | app/utils/pdf_security.py:307-348 | adds one image observation; the records stay those of the history |
| `Sink.DetectionSink.Form` | app/utils/pdf_security.py:350-353 | adds one form observation; the hints stay those of the history |
| `Sink.TopTargets` | app/utils/pdf_security.py:394-403 | at most eight targets are kept, none lighter than one left out |
| `Sink.DetectionSink.Decide` | app/utils/pdf_security.py:360-408 | needles and images are a heaviest-eight choice among exactly those that pass the rules, and every form's hint is returned |
| `Scan.ScanOperations` | app/utils/pdf_security.py:411-508 | the walk feeds the sink exactly the observations of the stream and of the forms it draws, in order, entering forms at most six deep and never along a cycle |
| `Scan.ScanDraw` | app/utils/pdf_security.py:469-504 | one `Do`: observe an image, or observe a form and walk into it under its matrix and resources |
| `Scan.AnalyseDocument` | app/utils/pdf_security.py:511-538 | the decision is drawn from the observations of all pages that have a readable stream |
| `Scan.NeedleWasRecorded` | app/utils/pdf_security.py:287-294 | every needle has a length between 2 and 80 and was recorded with a trait somewhere in the document |
| `Scan.FullPageImagesAreSpared` | app/utils/pdf_security.py:324-331 | such full-page images, scans for instance, are never decided on |
| `Scan.AtMostEight` | app/utils/pdf_security.py:394-403 | at most eight strings and images are decided on; a candidate is left out only for eight strings seen on at least as many pages |
| `Scan.FormStartMeaning` | app/utils/pdf_security.py:485-504 | a form's stream starts in the drawer's state, its points mapped by its own matrix first, with its own resources when it has any |
| `Scan.DrawReports` | app/utils/pdf_security.py:469-504 | a form is observed where it is drawn, at most six deep and never inside itself, and what its stream reports follows |
| `Scan.InlineImagesAreSeen` | app/utils/pdf_security.py:505-508 | a readable inline image is observed where it stands, without a soft mask; other operators report nothing |
| `Verdicts.ScanSizeMeaning` | app/utils/pdf_security.py:453-463 | the size of a block is the largest font size times scale of anything it shows, the font being the one selected last, in the block or before it |
| `Agreement.SegmentAt` | app/utils/pdf_security.py:588-673 | each segment starts where those before it end and is judged under the state the rewrite tracks there |
| `Agreement.TracksStreamIff` | app/utils/pdf_security.py:589-607 | in front of everything it does not strip the rewrite tracks the stream's own state if and only if every stretch of stripped marked content restores the state |
| `Agreement.SelfContainedMarksRestore` | app/utils/pdf_security.py:589-607 | it does when every stripped segment is self-contained |
| `Agreement.ReportedIff` | app/utils/pdf_security.py:434-508 | a stream's observations are exactly those reported at its operators, each under the state the operators before it produce |
| `Agreement.TextObservationIff` | app/utils/pdf_security.py:464-468 | on a stream that draws no form, the text observations are exactly those of its closing ET operators, with the text and traits gathered up to each |
| `Agreement.BodyAgrees` | app/utils/pdf_security.py:458-463 | inside a text block both interpreters accumulate the same text, diagonal flag and minimum alpha |
| `Agreement.InterpretersAgree` | app/utils/pdf_security.py:434-468 | on a page whose stripped stretches restore the state, scan and rewrite compute the same traits for every closed text block the rewrite does not skip, and these decide its verdict |
| `Agreement.RemovedIffRecordedNeedle` | app/utils/pdf_security.py:633-648 | every block is observed; a block whose own observation the sink recorded and whose string is a needle is removed; under a decided detection, a block dropped as detected text is such a block |
| `Agreement.AlternatingBlocksArePlain` | app/utils/pdf_security.py:444-465 | on a stream whose BT and ET alternate, every closed text block is covered by the agreement |
| `FormWalk.FormRewriter.RewriteForm` | app/utils/pdf_security.py:728-753 | a form seen for the first time is marked, its stream filtered once under its plan and what is left of its dictionary, and the dictionary pruned; removals and hits are counted |
| `FormWalk.FormRewriter.ProcessFormXObjects` | app/utils/pdf_security.py:705-759 | the recursion terminates on every finite, possibly cyclic graph; it raises only when an entry it can reach refers to nothing or the walked dictionary shrinks; otherwise it visits every listed form and only reachable ones, never a form twice, each under the plan it inherits from the walked dictionary or from a form visited before it, and returns the sums |
| `FormGraph.PrunedDrawIsKept` | app/utils/pdf_security.py:682-702 | pruning changes the verdict of a later stream on exactly the draws of doomed images, which are then kept |
| `FormGraph.DanglingDrawIff` | app/utils/pdf_security.py:619-669 | a filtered stream still draws a doomed image exactly when it draws it by itself after its dictionary was pruned, or inside a text block that is kept, closed or not |
| `PageWalk.WalkedWithoutTripping` | app/utils/pdf_security.py:726-758 | a walk that raised nothing reached no form that shares its dictionary and met no entry that refers to nothing |
| `FormWalk.GrownThroughEntry` | app/utils/pdf_security.py:726-758 | walking into one entry extends the visited forms by it and then only by forms reachable through it, each with a plan inherited from a form visited earlier in the walk |
| `FormGraph.ClosedHoldsReachable` | app/utils/pdf_security.py:726-758 | a set closed under the resource relation that holds the direct entries holds everything reachable |
| `PageWalk.ProcessPage` | app/utils/pdf_security.py:762-786 | one page: its own stream filtered, then its forms, then pruning; it raises exactly when the stream cannot be decoded, an entry it can reach refers to nothing, or the walk shrinks the dictionary it iterates |
| `PageWalk.RewritePages` | app/utils/pdf_security.py:945-949 | the loop raises if and only if some page does after those before it; otherwise the visited forms are exactly those reachable from some page, those of earlier pages first, each rewritten once, in the walk of the first page that reaches it, under a plan inherited in the order of that walk, and the counts are the sums over pages and forms |
| `PageWalk.PlanIsInherited` | app/utils/pdf_security.py:732-741 | on every graph, cyclic or not, each form was rewritten under the plan that a chain of forms from the resources of its first page hands down to it, hint by hint |
| `PageWalk.RunPlanEverywhere` | app/utils/pdf_security.py:735-741 | every form is searched for the run's own text, detected targets and layers, under hints at least as strict |
| `PageWalk.HintsAreHandedDown` | app/utils/pdf_security.py:732-741 | every form was rewritten under the run's plan with the hints of all forms on a chain from a page to it: diagonal when the plan or any of them is, with the least alpha of the plan, of 1 and of theirs |
| `PageWalk.OwnHintApplies` | app/utils/pdf_security.py:732-741 | a form's own draw sites count among them |
| `Watermarks.HintedFormTextIsDropped` | app/utils/pdf_security.py:633-644 | a closed block of a form that shows a needle is dropped when the form was drawn diagonally or with transparency somewhere |
| `Watermarks.UserTextIsDropped` | app/utils/pdf_security.py:640-642 | in every mode a closed block of a page that shows the user's text is dropped for it, whatever was pruned before |
| `PageWalk.SharedDictionaryTrips` | app/utils/pdf_security.py:682-702 | a page that lists a doomed image and a form using its own dictionary makes the rewrite raise |
| `Watermarks.RemoveWatermarks` | app/utils/pdf_security.py:926-949 | analysis, plan and rewrite together: automatic detection only in mode both, layers stripped unless only annotations are, and the page loop under that plan |
| `Watermarks.RecordedNeedlesAreDropped` | app/utils/pdf_security.py:926-949 | under the plan of a whole run and whatever was pruned before, every text block of a page whose own observation was recorded and whose string was decided on is dropped, and a block dropped as detected text is such a block |
| `Watermarks.SegmentsAlike` | app/utils/pdf_security.py:682-702 | pruning does not change how a stream is cut into segments nor the verdict on text and marked content |
| `PoolHealth.ScoreIsWorstSuffix` | app/utils/office_pool.py:83-91 | the clipped score is the maximum over all suffixes of the history of 2 * crashes - successes |
| `PoolHealth.FirstReached` | app/utils/office_pool.py:429-435 | the limit is first reached by exactly the crash that lifts the score to it |
| `PoolHealth.ReachedIffBadStretch` | app/utils/office_pool.py:83-91 | the limit has been reached exactly when, over some stretch of the history, 2 * crashes - successes was at least 6 |
| `PoolHealth.EnabledBoundsCrashes` | app/utils/office_pool.py:83-91 | while the limit has not been reached, 2 * crashes <= successes + 5 |
| `PoolHealth.PoolGlobals.RecordStrike` | app/utils/office_pool.py:429-446 | a crash adds 2; the pool is disabled and withdrawn exactly when the limit is reached |
| `PoolHealth.PoolGlobals.RecordSuccess` | app/utils/office_pool.py:449-451 | a success repays 1, never below 0, and neither enables nor disables |
| `PoolHealth.PoolGlobals.ActivatePool` | app/utils/office_pool.py:454-498 | returns a pool exactly when it would activate: the published pool, otherwise the first launcher that boots, which is published; without one the engine is disabled for good; at most one pool is ever published |
| `PoolHealth.PoolGlobals.PoolAvailable` | app/utils/office_pool.py:501-507 | answers yes exactly when some outcome of the launcher candidates lets activation return a pool |
| `PoolProtocol.RunKeepsInv` | app/utils/office_pool.py:303-498 | every reachable state satisfies the lock, ownership and health invariant |
| `PoolProtocol.ConversionsAreExclusive` | app/utils/office_pool.py:346-370 | in every interleaving, with deaths, respawns and shutdown, two conversions in flight never use the same server and at most `size` run at once |
| `PoolProtocol.PoolLockHolderSteps` | app/utils/office_pool.py:462-495 | the holder of the pool lock can always step: the only lock it takes belongs to an unpublished probe |
| `PoolProtocol.NeverDeadlocks` | app/utils/office_pool.py:329-370 | whenever a thread is blocked on a slot lock or the pool lock, the thread it waits for can step, or waits for the holder of the pool lock, which can: no chain of waiting threads closes |
| `PoolProtocol.ConversionStartsHealed` | app/utils/office_pool.py:317-327 | a conversion starts on its slot's server, alive at that check, or on one its own thread has just started for the slot |
| `PoolProtocol.ReadsOwnServer` | app/utils/office_pool.py:326-327 | a server that is read back is the one the thread just started, with nothing in between |
| `PoolProtocol.CrashIsNotRetried` | app/utils/office_pool.py:356-369 | a thread whose server died does not convert again before it has left the pool |
| `PoolProtocol.CrashAbandonsConversion` | app/utils/office_pool.py:356-369 | a run in which the only conversion is abandoned although the pool stays enabled |
| `PoolProtocol.BlockedIffStuck` | app/utils/office_pool.py:329-370 | a thread is blocked exactly when no outcome of the outside world lets it step |
| `PoolProtocol.RunsRespectHealth` | app/utils/office_pool.py:429-451 | over every run: the score is the worst suffix, at most one pool is ever published, once one is the engine is disabled exactly when the limit has been reached, and disabling is final |
| `PoolOutcomes.MoveRecords` | app/utils/office_pool.py:356-370 | a conversion that finishes adds exactly one success and repays one strike, never below zero; recording a crash adds exactly one and costs two; nothing else is recorded |
| `PoolOutcomes.HistoryIsOutcomes` | app/utils/office_pool.py:356-370 | the recorded history of a run is exactly the sequence of the outcomes of its moves |
| `PoolOutcomes.CrashesAreConserved` | app/utils/office_pool.py:429-451 | conversions that killed their server are those recorded plus those whose thread is about to record one; all successes are recorded |
| `PoolOutcomes.RunIsPlayed` | app/utils/office_pool.py:346-370 | every run is played by some sequence of moves, so this holds of all runs |
| `PoolOutcomes.PrefersIdleSlot` | app/utils/office_pool.py:346-353 | a conversion settles on a slot idle at that moment, or, after finding none, on the next in turn |
| `PoolOutcomes.ProbesEachCandidate` | app/utils/office_pool.py:463-498 | every launcher candidate is tried once, each in a pool of its own; having none, or none that starts, disables the engine |
| `PoolOutcomes.ShutdownEndsPool` | app/utils/office_pool.py:414-418 | a shutdown leaves no server of the pool stored or running, and touches no other pool's |
| `Uploads.Storage.WriteStream` | app/services/storage.py:117-154 | the file holds exactly the source bytes and the digest is theirs, for every division into chunks, or the partial file is gone; no write leaves the file above its cap, and each adds its size to what the other files hold |
| `Uploads.UploadService.StoreOne` | app/services/upload.py:106-162 | one file passes or fails with the error its content, type and allowance call for; on failure the disk is as before unless the flush failed |
| `Uploads.UploadService.StoreAll` | app/services/upload.py:77-90 | the loop stores the longest passing prefix and stops at the first file that fails |
| `Uploads.UploadService.RollBack` | app/services/upload.py:95-96 | exactly the batch's files are removed |
| `Uploads.UploadService.UploadFiles` | app/services/upload.py:64-104 | a batch succeeds if and only if count, types, sizes and sum are in range and nothing fails outside; then disk and rows gain exactly the batch; otherwise no row is committed, the error is that of the first file to fail or of the commit, and the disk is as before exactly unless that file fails in its flush; no write ever takes the disk more than the batch cap above what it held |
| `Uploads.FailureDecides` | app/services/upload.py:77-97 | a batch with a first failure is not within its limits, and fails in a flush exactly when that failure is one |
| `Uploads.PassIffWithinLimits` | app/services/upload.py:75-90 | the shrinking budget accepts every file exactly when each is sound by itself and the sizes sum to at most the batch cap |
| `Uploads.LimitErrorsAreHonest` | app/services/upload.py:135-145 | a combined-limit error means the batch so far exceeds the batch cap, a per-file error that the file exceeds its cap |
| `Uploads.WhyAFileFails` | app/services/upload.py:120-161 | exactly which error a file raises, from its first 1024 bytes, its type, the tighter of the two caps, its stream and its flush, in this order |
| `Uploads.RolledBack` | app/services/upload.py:92-97 | removing the stored paths restores the disk, up to the one file a failed flush left |
| `Uploads.AddAllContents` | app/services/upload.py:77-90 | each path of a stored batch holds the full source bytes |
| `ZipNames.CandidateInjective` | app/services/download.py:155-160 | different counters give different candidate names |
| `ZipNames.CandidateShape` | app/services/download.py:155-160 | the number goes in front of the last dot, after a blank and in parentheses, or at the end of a name without one |
| `ZipNames.FreeName` | app/services/download.py:152-161 | terminates for every name and used set with the first candidate not in use |
| `ZipNames.DeduplicateNames` | app/services/download.py:149-163 | every entry keeps its place and takes the first candidate free of the names before it |
| `ZipNames.DeduplicatedNames` | app/services/download.py:149-163 | the names are pairwise distinct, and a name is kept exactly when no earlier entry took it |
| `ZipNames.DeduplicationUnique` | app/services/download.py:149-163 | the rule determines all names |
| `Decimals.DecimalInjective` | app/services/download.py:157-159 | different numbers print differently |
| `Decimals.NoLeadingZero` | app/services/download.py:157-159 | printed numbers have no leading zero |
| `PropertyOrder.ReorderedIsPermutation` | app/utils/pdf_convert.py:225-234 | no child is dropped or duplicated |
| `PropertyOrder.RecognisedInSchemaOrder` | app/utils/pdf_convert.py:226-230 | recognised tags come out in schema order, equal ones in their original order |
| `PropertyOrder.FollowerStaysAttached` | app/utils/pdf_convert.py:225-229 | an unrecognised tag right after a recognised one still directly follows it |
| `PropertyOrder.FollowersInOrder` | app/utils/pdf_convert.py:225-230 | the follower of a recognised tag comes before every recognised tag of higher rank |
| `PropertyOrder.UnattachedComeFirst` | app/utils/pdf_convert.py:225-230 | an unrecognised tag without a recognised one right before it comes in front of every recognised tag |
| `PropertyOrder.UnrecognisedKeepOrderIff` | app/utils/pdf_convert.py:210-211 | two unrecognised tags keep their order exactly when the earlier one's key is not above the later one's |
| `PropertyOrder.SecondFollowerOvertakes` | app/utils/pdf_convert.py:210-211 | of two unrecognised tags after a recognised one the second overtakes the first, against the docstring |
| `PropertyOrder.ReorderingIsIdempotent` | app/utils/pdf_convert.py:220-235 | a second run changes nothing |
| `PropertyOrder.RankOfIsPosition` | app/utils/pdf_convert.py:215-218 | the rank of a schema tag is its position |
| `PropertyOrder.Element.Normalize` | app/utils/pdf_convert.py:222-235 | appending each child in sorted order realises exactly that order; a fix is counted exactly when something changed |
| `PropertyOrder.NormalizePropertyOrder` | app/utils/pdf_convert.py:219-236 | every element is re-sorted and the result is the number that changed |
| `ParallelMap.ProcessEachInput` | app/tasks/base.py:119-124 | all outputs in input order, or the first failing input's error, with the progress made until then |
| `ParallelMap.ProcessEachInputParallel` | app/tasks/base.py:155-178 | for every completion order: with at most one worker, or when all operations succeed, the sequential form's outputs, progress or error; otherwise the error of the first to fail, after the progress made until then |
| `ParallelMap.ErrorsRaised` | app/tasks/base.py:168-172 | the sequential form raises the error of the first failing input, the parallel form that of the first to fail |
| `ParallelMap.ErrorsAgreeIff` | app/tasks/base.py:168-172 | both forms raise the same error for every completion order if and only if all failing operations carry the same error |
| `ParallelMap.ErrorsMayDiffer` | app/tasks/base.py:168-172 | a concrete input and completion order on which they raise different errors |
| `ParallelMap.ProgressClimbs` | app/tasks/base.py:123 | reported progress never decreases and ends at the ceiling |
| `ParallelMap.ProgressIsShare` | app/tasks/base.py:123 | after i + 1 files the report is that share of the ceiling, rounded down |
| `PageSelection.ParsePageSelection` | app/utils/pdf_pages.py:40-62 | the ordered page list of a specification, or why it is rejected: malformed, empty, or with exactly these pages out of range |
| `PageSelection.ParsePageRange` | app/utils/pdf_overlay.py:86-100 | the pages admitted by the second parser: all for an empty specification, else exactly the listed ones |
| `PageSelection.ParsePrint` | app/utils/pdf_pages.py:40-62 | printing any non-empty list of valid page numbers and parsing it gives the list back |
| `PageItems.ParseItems` | app/utils/pdf_pages.py:44-51 | a list of numbers and ranges denotes each number and the pages of each range, in the order written: the first parser returns them and the second admits exactly them |
| `PageItems.ParseSpan` | app/utils/pdf_pages.py:47-49 | "a-b" gives b - a + 1 pages, the i-th being a + i |
| `PageItems.SignsAndBlanks` | app/utils/pdf_pages.py:48-51 | a number may carry a sign and blanks around it |
| `PageItems.UnderscoreIgnored` | app/utils/pdf_pages.py:48-51 | a single underscore between digits does not count |
| `PageItems.EmptyParts` | app/utils/pdf_pages.py:45-46 | the first parser skips empty parts, the second rejects them |
| `PageItems.EmptyAdmitsAll` | app/utils/pdf_overlay.py:91-92 | the second parser takes an empty specification for every page |
| `PageItems.SelectionErrors` | app/utils/pdf_pages.py:52-62 | an accepted selection is not empty and lies in the document; a rejected one is malformed, empty, or named with exactly the selected pages that do not |
| `PageSelection.ParsersAgree` | app/utils/pdf_overlay.py:91-100 | both parsers select the same pages on every specification both accept |
| `PageSelection.RangeAcceptedBySelection` | app/utils/pdf_overlay.py:91-100 | what the second parser accepts the first accepts exactly when it selects some page and none outside the document |
| `PageSelection.SplitWithoutSpaces` | app/utils/pdf_pages.py:44 | removing spaces commutes with splitting at commas |
| `PageOps.MergePdfs` | app/utils/pdf_pages.py:71-77 | the concatenation of the sources, or an error exactly when one has no pages |
| `PageOps.SplitPdf` | app/utils/pdf_pages.py:80-108 | one part for each selection, holding exactly its pages in order |
| `PageOps.RotatePdf` | app/utils/pdf_pages.py:111-137 | exactly the selected pages of the right parity turn, for angles that are multiples of 90 but not of 360 |
| `PageOps.TurnedPages` | app/utils/pdf_pages.py:127-136 | a page turns by the angle exactly when it is selected, or all are, and its number has the parity asked for; its content stays |
| `PageOps.DeletePages` | app/utils/pdf_pages.py:140-151 | the pages not selected remain in order, and at least one must |
| `PageOps.RemainingInOrder` | app/utils/pdf_pages.py:147-150 | delete keeps exactly the other pages, in increasing order |
| `PageOps.DeleteRefusesAll` | app/utils/pdf_pages.py:145-146 | delete refuses exactly a selection of every page |
| `PageOps.ExtractPages` | app/utils/pdf_pages.py:154-161 | the selected pages in the order given |
| `PageOps.ReorderPages` | app/utils/pdf_pages.py:164-175 | the pages in the given order, which must be a permutation of 1..N |
| `PageOps.SplitThenMerge` | app/utils/pdf_pages.py:71-108 | splitting by selections that concatenate to 1..N and merging the parts gives the document back |
| `PageOps.SplitIntoPages` | app/utils/pdf_pages.py:95-96 | split into every page gives each page alone, in order |
| `PageOps.SplitByRanges` | app/utils/pdf_pages.py:97-98 | part i is what the i-th range selects; the first rejected range rejects the split |
| `PageOps.EveryPageCovers` | app/utils/pdf_pages.py:95-96 | the every-page split always satisfies that condition |
| `PageOps.PermutationIff` | app/utils/pdf_pages.py:168-171 | an order is accepted exactly when it has N entries and lists every page |
| `PageOps.ReorderUndone` | app/utils/pdf_pages.py:164-175 | reordering by an order and then by its inverse is the identity |
| `PageOps.DeleteAndExtractPartition` | app/utils/pdf_pages.py:140-161 | what delete keeps and extract takes partition the pages exactly when the selection has no duplicate |
| `PageOps.TurnedBack` | app/utils/pdf_pages.py:127-136 | turning the same pages back restores the document |
| `RenderChunks.SplitRange` | app/utils/poppler.py:123-128 | non-empty contiguous ranges that tile start..end, at most `workers` of them |
| `RenderChunks.RenderRange` | app/utils/poppler.py:65-79 | the images of a page range in page order, or nothing when a page fails or none exists |
| `RenderChunks.SortedStays` | app/utils/poppler.py:149 | images that arrive in page order are left so by the final sort |
| `RenderChunks.RenderChunked` | app/utils/poppler.py:137-150 | chunks give exactly the images of a serial rendering, and succeed exactly when it does and the last chunk starts inside the document |
| `RenderChunks.RenderAuto` | app/utils/poppler.py:80-150 | small spans render serially, large ones in chunks, with the same images; when chunks fail and the serial call would not |
| `RenderChunks.BoundsMeaning` | app/utils/poppler.py:102-104 | the pages asked for: from the first, or 1, to the last, or all, as far as the stated page count goes |
| `Jobs.Job.constructor` | app/services/tool_base.py:104-139 | a new job is queued with progress 0 and its inputs linked at positions 0..n-1 |
| `Jobs.Job.Submit` | app/services/tool_base.py:136-169 | the row after dispatch: what the run left, or failed with the queue error when the call raises |
| `Jobs.Job.SetProgress` | app/repositories/job.py:69-70 | progress is clamped to 0..100 and otherwise kept |
| `Jobs.Job.MarkProcessing` | app/repositories/job.py:72-75 | processing with progress 0, all else unchanged |
| `Jobs.Job.MarkCompleted` | app/repositories/job.py:77-80 | completed with progress 100, all else unchanged |
| `Jobs.Job.MarkFailed` | app/repositories/job.py:82-89 | failed with a code and at most 2000 characters of message, all else unchanged |
| `Jobs.Job.RunToolJob` | app/tasks/base.py:204-320 | a terminal job is left alone; any other ends as the run's verdict says, with its outputs, progress and events |
| `Jobs.Job.Attempt` | app/tasks/base.py:217-251 | which exception, if any, a run raises, in the order inputs, workspace, processor, outputs, and what it has changed by then |
| `Jobs.CheckInputs` | app/tasks/base.py:218-229 | an unresolvable input outranks a missing one, wherever it stands |
| `Jobs.Job.RegisterOutputs` | app/tasks/base.py:334-361 | files are linked at positions 0, 1, ... up to the first import that fails |
| `Jobs.LifeIsSound` | app/tasks/base.py:204-320 | over every sequence of deliveries, dispatch errors, cancellations and sweeps: progress in 0..100; completed means progress 100, no error and n >= 1 outputs at positions 0..n-1; failed means an error code |
| `Jobs.CreatedJobsEnd` | app/services/tool_base.py:141-169 | a submitted job ends completed or failed exactly when its dispatch raises or it is delivered and not left dangling |
| `Jobs.CompletedIff` | app/tasks/base.py:247-254 | completed exactly when the processor returned files and all could be imported; they are the outputs, in order |
| `Jobs.FailureCodes` | app/tasks/base.py:225-306 | the error code of every failing run, by its cause |
| `Jobs.MessageIsCut` | app/repositories/job.py:87-88 | an error message is kept up to its first 2000 characters |
| `Jobs.ProgressLeft` | app/repositories/job.py:69-80 | progress is 100 after completion, otherwise the last report cut to 0..100, or 0 |
| `Jobs.FailedKeepsOutputsIff` | app/tasks/base.py:250-267 | a failed job keeps output links exactly when some import failed after the first succeeded |
| `Jobs.LastEventIsFinal` | app/tasks/base.py:314-320 | the last event of a run repeats the row and is terminal unless the run dangles; earlier ones say processing; progress events stay in 0..100 |
| `Jobs.ReportsAreAnnounced` | app/tasks/base.py:208-234 | a run announces its start, then every report of the processor cut to 0..100, then its end |
| `Jobs.TerminalIsFrozen` | app/tasks/cleanup.py:41-44 | only the cleanup or a dispatch error changes a terminal job |
| `Jobs.FailedDispatchAndCancel` | app/services/tool_base.py:161-168 | a failed dispatch fails the job as unavailable, its progress and outputs as they are; a cancellation ends exactly the jobs that have not ended |
| `Jobs.TerminalForever` | app/tasks/cleanup.py:41-44 | without dispatch errors a terminal job never changes except to expired, after its retention window |
| `Jobs.LateDispatchErrorOverwrites` | app/services/tool_base.py:161-168 | a dispatch that runs the job and then raises fails a completed job |
| `Jobs.ListExpired` | app/repositories/job.py:91-103 | exactly the completed, failed or cancelled jobs past their window, each once |
| `Jobs.CleanupExpired` | app/tasks/cleanup.py:41-44 | exactly these become expired, and their number is returned |
| `Jobs.SweepMeaning` | app/repositories/job.py:94-102 | a sweep expires exactly the completed, failed or cancelled jobs whose retention time is in the past |
| `Jobs.InputsInSubmittedOrder` | app/tasks/base.py:212-215 | however the database returns the input links, sorting by position gives the submitted order |

## Left out

- Parsing, serialising and rendering PDF files, decoding text operands, and the redaction fallback for undecodable fonts: foreign libraries.
- `Watermarks.RemoveWatermarks`: annotation stripping, layer switching and garbage collection: single loops over library objects.
- Operators with malformed operands, such as `cm` with fewer than six numbers, on which the code raises: operands are decoded beforehand.
- Floating point: matrices, sizes and alphas are reals, the angle test and the scale factor in the passes are uninterpreted functions of the matrix.
- Lower-casing, whitespace and digits outside ASCII, and the limit on the digits of an `int`.
- Agreement of the two passes inside Form XObjects: the rewrite starts a form at the identity and ignores its matrix. Fonts: the rewrite does not track them.
- `Scan.ScanOperations`: a name whose entry refers to nothing draws nothing; should the library hand out an object there on which the analysis already fails, the run fails one pass earlier than here.
- A form whose stream cannot be decoded or written back, which the source logs and skips, is one without a stream here; entries whose digest cannot be computed are not modelled.
- `Agreement.RemovedIffRecordedNeedle`: for the string to be a needle it must survive the cut to eight; which of equally frequent strings do is left open, as it is in the source.
- Process spawning, ports, launcher discovery, the client's environment and timeouts in the pool: arbitrary outcomes of a step. The unlocked success update is one atomic step; a missing server read back after a shutdown fails the conversion. The external shutdown at interpreter exit and the reset helper are not modelled.
- `PoolProtocol.NeverDeadlocks`: that the thread waited for, or the lock holder it waits for, can step, not that a given thread eventually does.
- File names and paths in uploads are abstract, allocation returns an unused one; failures of `delete` and cancellation of a running upload are not modelled.
- Database failures during a run, retry by an administrator, and cancellation while a worker is running: the events of a job's life follow one another.
- `Jobs.LifeIsSound`: an exit outside `Exception` comes from the processor only, not from importing its outputs; input sizes, timings, option redaction and log records are not part of the row.
- Expiry of stored files and stale workspaces.
- `PageOps.MergePdfs`: bookmarks are not modelled, a page is its content and rotation.
- `RenderChunks.RenderAuto`: a render error is one failure, whatever its message; the page threshold is taken not to be negative.
- Encryption, overlays, OCR, image tools, the HTTP interface, accounts, mail, analytics and rate limits.
