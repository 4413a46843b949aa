# SlideLens: a Dafny model and its proofs

SlideLens reviews slide decks. A deck is uploaded against a credit, analysed by language models, and reported as a
list of findings that users can ask to have fixed in the deck. This project models the parts of it that carry state,
arithmetic or a protocol, and proves what they guarantee.

| files | what they model |
|---|---|
| `Slides`, `FixRules`, `PptxFixer`, `FixProperties`, `FixEffects` | the auto-fixer: shape matching, the three rules, the control check, all or nothing, what one finding does |
| `FixOrder`, `FixText`, `FixLimits` | when the order of the findings matters to a fix, and what several findings on one shape leave of it |
| `FixReview`, `FixService`, `RowOrder` | point-apply: the stored fixed deck as a cache over the set of applied findings |
| `Credits`, `CreditService`, `Lifecycle` | the two wallets, and the upload, worker and deletion steps that interleave over them; the life of a review |
| `Aggregate`, `ReportOrder`, `ReportContents`, `Score` | deduplication, the per-slide cap, the report order and what a report shows and hides, the deck score |
| `Geometry`, `Rounding`, `Zoom` | boxes, IoU, projection from a crop, pixel rounding, the zoom pass |
| `Recurring` | grouping near-identical findings across slides |
| `SlideTimings` | the rehearsal clock and the speech windows built from it |
| `ApiClient`, `TokenRefresh` | the browser client's single-flight token refresh |
| `LlmClient` | retries, the repair attempt, the cost of a call, the price lookup |
| `ContactSheet` | splitting slides over contact sheets, the thumbnail grid |
| `GreedyScan`, `StableSort`, `Sums`, `Taxonomy`, `Wrappers` | the greedy scan three features share, the stable sort, sums, enumerations, small types |

Conventions. Coordinates, scores, times and prices are exact `real`s; pixels, EMU, credits and tokens are unbounded
`int`s. An external party is a parameter about which nothing is assumed: the duplicate judge is a function of the two
input places it is asked about (no pair is asked about twice in a pass), a model is a function of the zoom's number,
a provider is a function of the call's number, the clock is an argument, and the luminance of a colour channel is any
function that is 0 at 0, 1 at 255 and stays between. A finding's lower-cased text and the words of a title are given.
Where the source updates things in place the model has a class or a loop whose postcondition names a function of the
old state, and the lemmas are about that function. Python-pptx hands out a fresh proxy for a shape at every access,
so the open presentation is one mutable object and every edit goes through it. Each lemma carries
`{:induction false}`: every induction is written out.

Ten results are about what the code does not do. Each has an input that shows it and the condition under which the
code does meet the property:

* Row order. The query behind point-apply asks for no order, and two alignments read in two orders give one applied set
  two stored decks (`RowOrder.SameSetDifferentDecks`). The fixer works on any list in any order alike unless one slide
  has an alignment together with another finding, and knowing only slides and rules that condition is exact
  (`FixOrder.OrderIrrelevant`, `FixLimits.OrderFreeIff`).
* A second run of the worker stores the original again and leaves the applied flags set, and a run in which it does loses
  an applied fix (`RowOrder.RedeliveryLosesAFix`). The stored deck is then still the fix of the applied set exactly when no
  click had regenerated it or the last that did had stored the original (`FixReview.RedeliveryForgetsTheFixes`,
  `FixReview.CoherentIff`).
* A set flag need not mean that the finding's own entry in the replay reads `applied` (`RowOrder.FlagWithoutEffect`). On a
  slide without an applied alignment it means that the shape no longer needs the rule, and the entry reads `applied`
  exactly when no finding read earlier asked the same of a shape that needed it (`FixReview.SetFlagGuarantee`,
  `FixText.TextAppliesIff`).
* Repeated shape ids. The control check looks at the first shape carrying an id, so an edit of a later one that hangs
  off the slide is kept (`FixLimits.RepeatedIdHidesAnOffSlideEdit`). Knowing only the ids, every changed shape of every
  fix is on its slide exactly when no slide repeats one (`FixLimits.DistinctIdsIff`); for one finding the outcome is
  decided by the first carrier (`FixProperties.OneFindingKeptOffSlideIff`).
* The contrast rule promises text at 4.5:1. It keeps that promise exactly on backgrounds with luminance above 0.5 or
  at most 11/60 (`FixRules.LegibleReaches`, `FixRules.RecolorReachesIff`), which leaves out red (`FixRules.RedStaysFaint`);
  in between the other extreme colour would have kept it (`FixRules.OtherExtremeWouldDo`).
* `process_review` does not look at a review's status before it starts. A wallet's total is conserved exactly when no
  worker writes to a review that has already failed (`Credits.RunBalance`); a job that fails twice turns one credit into
  two (`Credits.SecondDeliveryGivesACredit`).
* For the same reason a done review goes back to processing when its job is delivered again
  (`Lifecycle.RedeliveryReopens`). Once done it stays done until it is deleted when nothing works on it and no job of it
  starts again (`Lifecycle.DoneStays`), so whenever its job is delivered at most once (`Lifecycle.OneDeliveryDoneStays`).
* Signing out while a refresh runs is undone when it succeeds (`TokenRefresh.SignOutUndone`). Signing out sticks exactly when
  no refresh is in flight (`TokenRefresh.SignOutSticksIff`).
* A rehearsal segment is checked against the slide it was spoken on exactly when that slide is not visited again later
  and has text (`SlideTimings.CheckedIffLastVisit`): a later visit replaces the earlier window
  (`SlideTimings.RevisitHidesFirstVisit`), and a slide without text is not checked (`SlideTimings.BlankSlideHidesSpeech`).
* Deck-level entries come first among equally severe ones exactly as far as slide numbers are above -1; on -1 the order
  of appearance decides and below it the slide comes first (`ReportOrder.DeckLevelFirstIff`,
  `ReportOrder.NegativeSlidesComeFirst`).

## Model

| member | source | states |
|---|---|---|
| Slides.Presentation.SetRun | backend/core/fix.py:85-89 | assigning to a run changes that run of that shape and nothing else of the presentation |
| FixRules.ApplyMinFontSize | backend/core/fix.py:81-90 | the loop over paragraphs and runs leaves the presentation with exactly this shape's small runs raised, and reports a change iff there was one |
| FixRules.RaiseFontsReaches | backend/core/fix.py:70-90 | afterwards no explicit size is below 14 pt, and a second pass changes nothing |
| FixRules.RaiseFontsSafe | backend/core/fix.py:81-90 | only explicit sizes below 14 pt change, to 14 pt, and nothing else of the shape; a pass that reports no change made none |
| FixRules.ApplyContrast | backend/core/fix.py:103-119 | the loop leaves exactly this shape's faint runs recoloured against the fill, white when there is none, and reports a change iff there was one |
| FixRules.RecolorTextSafe | backend/core/fix.py:103-119 | only explicit colours below 4.5:1 against the fill, or white, change, to black on a light background and white otherwise, and nothing else of the shape; a pass that reports no change made none |
| FixRules.RelativeLuminance | backend/core/fix.py:55-61 | luminance lies between 0 and 1 for every channel curve with those end points |
| FixRules.LuminanceOfChannels | backend/core/fix.py:55-61 | pure red has luminance 0.2126, pure green 0.7152, pure blue 0.0722, and a colour has the sum of its channels (WCAG 2.1, definition of relative luminance) |
| FixRules.ContrastIsQuotient | backend/core/fix.py:64-67 | the ratio times the darker luminance plus 0.05 is the lighter one plus 0.05 |
| FixRules.ContrastRange | backend/core/fix.py:64-67 | the ratio is symmetric, lies in 1..21, and is 21 for black on white (WCAG 2.1, definition of contrast ratio) |
| FixRules.LegibleReaches | backend/core/fix.py:113-116 | the chosen colour always reaches 21/11, and reaches 4.5 iff the background is above 0.5 or at most 11/60 |
| FixRules.RecolorReachesIff | backend/core/fix.py:93-119 | no run of the shape is left below 4.5 iff none was, or the background is one of those |
| FixRules.RedStaysFaint | backend/core/fix.py:103-119 | under every channel curve red text on red turns white, stays below 4.5 and is reported as changed again at every further pass |
| FixRules.OtherExtremeWouldDo | backend/core/fix.py:113-116 | on every background where white falls short black reaches 4.5 |
| FixRules.SnapEdge | backend/core/fix.py:147-160 | the scan over siblings copies the first near edge in shape order and reports whether there was one |
| FixRules.ApplyAlignment | backend/core/fix.py:145-161 | left first, then top against the already moved shape; the result is the one described next |
| FixRules.AlignLands | backend/core/fix.py:145-161 | on each axis the edge becomes the first sibling edge within 3 px, in shape order, or stays because none is; nothing else of the shape changes, and a change is reported exactly when some left or some top was near |
| FixRules.SnapIsNear | backend/core/fix.py:145-161 | an edge stays because no sibling is near, or moves at most 3 px onto the first near sibling's edge |
| FixRules.AlignSafe | backend/core/fix.py:145-161 | only left and top change, each onto the edge of a near sibling; a pass that reports no change made none |
| FixRules.SelfIsNeverNear | backend/core/fix.py:151-158 | the identity test in the loop never decides: a shape's own edge is equal, hence skipped |
| PptxFixer.FirstRule | backend/core/fix.py:253-255 | the first rule in list order that applies, none before it applying, or none applies at all |
| PptxFixer.RuleWords | backend/core/fix.py:75-79 | a text naming the font or the type size asks the font rule exactly in TYPOGRAPHY, one naming contrast the contrast rule exactly in READABILITY, either word for aligned the alignment rule in any category; nothing else asks a rule |
| PptxFixer.ShapeBoxScales | backend/core/fix.py:164-182 | a shape is compared by its frame cut to the slide, lefts and widths in parts of the slide's width, tops and heights in parts of its height |
| PptxFixer.BestMatch | backend/core/fix.py:164-182 | the first shape with the greatest positive overlap, or none overlaps |
| PptxFixer.FindMatchingShape | backend/core/fix.py:164-182 | the loop with its running best finds that shape, passing over shapes without a full frame |
| PptxFixer.Fixer.ApplyOneInPlace | backend/core/fix.py:229-264 | one finding's effect on slides, touched set and log is the step function's, and its flag is raised iff the step applied |
| FixProperties.AppliesIff | backend/core/fix.py:229-264 | with a target shape and a rule, the finding takes effect iff it is auto-fixable and the rule found something; then that shape alone is replaced, recorded and logged |
| FixProperties.NeedsSlideTargetAndRule | backend/core/fix.py:235-255 | a finding that takes effect is auto-fixable and has a slide of the deck, an overlapping shape and a rule |
| PptxFixer.UnappliedChangesNothing | backend/core/fix.py:257-264 | a finding that is not applied leaves slides and touched set as they were |
| PptxFixer.ReplayKeeps | backend/core/fix.py:203-208 | over any list of findings slides and shapes stay in place, every size is the old one or 14 pt where that was smaller, every colour the old one or black or white where one was set, every edge one that a shape of the slide had; ids, extents, fills and untouched shapes are unchanged and every touched key names a shape |
| PptxFixer.FirstWithId | backend/core/fix.py:274-278 | the first shape of the slide carrying the id, or no shape carries it |
| PptxFixer.Fixer.PassesControlCheck | backend/core/fix.py:266-287 | in whatever order the touched set is visited, the answer is yes iff the slide count is kept and the first carrier of every touched id exists and lies on its slide |
| PptxFixer.Fixer.Fix | backend/core/fix.py:192-227 | the returned deck and log are the fix function's; after a rollback every flag is down, otherwise a flag is up iff it was or the finding applied |
| FixProperties.FixIsAllOrNothing | backend/core/fix.py:192-227 | either the original deck, nothing applied and every entry rolled back, or every touched shape passes the check, the untouched are unchanged and the others changed only as just listed; the log has one entry per auto-fixable finding and says applied exactly for the applied ones |
| FixProperties.RollsBackIffOffSlide | backend/core/fix.py:210-219 | slide count and lookup can never fail: it rolls back iff the first carrier of a touched id has a negative left or top, or reaches beyond the slide's width or height |
| FixProperties.RolledBackLogNamesAll | backend/core/fix.py:213-219 | the log of a rolled back fix names the same findings and rules as the edits that were undone |
| FixProperties.ChangedShapesOnSlide | backend/core/fix.py:273-286 | every changed shape that is the first to carry its id lies on its slide |
| FixProperties.AllChangedShapesOnSlide | backend/core/fix.py:273-286 | for every deck and list each changed shape lies on its slide or, only if ids repeat, behind an earlier shape with its id that does |
| FixLimits.DistinctIdsIff | backend/core/fix.py:273-286 | knowing only the shape ids, every changed shape of every fix lies on its slide exactly when no slide repeats an id |
| FixProperties.OneFindingKeptOffSlideIff | backend/core/fix.py:273-286 | one finding, given the shape and rule it picks: rolled back exactly when it applies and the first carrier of the id then hangs off the slide, otherwise exactly that shape is edited; an edit that hangs off is kept exactly when an earlier shape carries the id and the first that does is on the slide |
| FixEffects.OneFindingDoes | backend/core/fix.py:192-264 | one finding, given the shape and rule it picks, when not rolled back: that shape alone differs, explicit sizes below 14 pt at 14 pt, or runs below 4.5:1 at the extreme the fill calls for, or each edge at the first near one; the entry names the rule and says applied exactly when some run was small, or faint, or some edge near |
| FixEffects.EntryTells | backend/core/fix.py:257-264 | with shape and rule given an unapplied finding is logged with the rule and that rule's own reason, the missing text frame first for the two text rules |
| FixEffects.SkippedEntryTells | backend/core/fix.py:235-255 | without them nothing is logged for a finding that is not auto-fixable, else the first of slide and box, slide in range, overlapping shape, rule that is missing |
| FixLimits.RepeatedIdHidesAnOffSlideEdit | backend/core/fix.py:274-278 | with a repeated id the fixer keeps an edit of a shape that is off the slide |
| FixProperties.UnappliedCanBeDropped | backend/core/fix.py:203-206 | leaving an unapplied finding out of the list changes neither the slides, nor the touched set, nor what the others did |
| FixProperties.DroppingKeepsTheDeck | backend/core/fix.py:192-227 | the same for the whole fix, rollback included |
| FixReview.ApplyFixKeepsCoherence | backend/app/services/finding_service.py:93-145 | one call, whatever order it reads the rows in: a refusal or repeat changes nothing; otherwise the stored deck is the fix of the new applied set in that order, the version rises by one, and the set gains the called finding exactly when it applied and is emptied with the original restored exactly when the fix rolled back |
| FixReview.SeedIsCoherent | backend/worker/tasks.py:171-176 | what the first worker run stores is the fix of the empty set, in every row order |
| FixReview.StoredDeckIsReplay | backend/app/services/finding_service.py:80-187 | after any run of worker deliveries, clicks and file expiries, with a row order of its own for each click: if a click wrote the stored deck last it is the fix of the original with exactly the applied findings in the order that click read them, if a worker did it is the original; the version counts the writes since the file was created |
| FixReview.CoherentIff | backend/app/services/finding_service.py:87-145 | after any run the stored deck is the fix of the applied set exactly when it is the deck the last click stored, or the original if no click regenerated it; in the order that click read, and in any order when no applied alignment shares a slide |
| FixReview.RedeliveryForgetsTheFixes | backend/worker/tasks.py:234-258 | a further worker run restores the original, adds one to the version and leaves the applied set; the deck is then the fix of that set exactly when no click had regenerated it or the last one had stored the original, which is the deck stored before if a click wrote it |
| FixReview.NothingWithoutTheOriginal | backend/app/services/finding_service.py:102-108 | once the original has expired no event changes findings or applied set, and the stored deck goes only by expiring itself |
| RowOrder.RedeliveryLosesAFix | backend/worker/tasks.py:318-343 | a finding is stored, clicked and applied and the worker runs again: its flag is set, the original is stored, and in no row order is that the fix of the applied set |
| FixReview.StoredDeckDependsOnTheSetOnly | backend/app/services/finding_service.py:87-92 | two runs ending with the same findings applied, a click having written last, store the same deck, whatever the clicks and whatever the row orders when no applied alignment shares a slide with another applied finding, and for equal last row orders without that condition |
| FixReview.SetFlagGuarantee | backend/app/services/finding_service.py:114-135 | when no applied finding of the slide asks for an alignment the shape a flagged finding aims at no longer needs its rule in the stored deck, unless the rule cannot settle it |
| RowOrder.FlagWithoutEffect | backend/app/services/finding_service.py:131-135 | two font findings on one shape, the one read second clicked first: both flags end up set and the second is skipped in the replay that gives the stored deck |
| FixOrder.StepsCommute | backend/core/fix.py:229-264 | two findings that do not ask for an alignment next to another finding on one slide leave the same slides and touched shapes in either order |
| FixOrder.OrderIrrelevant | backend/core/fix.py:203-219 | when no slide has an alignment next to another finding every order of the list gives the same deck and the same verdict |
| FixLimits.ClashMakesOrderMatter | backend/core/fix.py:145-182 | for any slides and rules in which an alignment meets another finding on one slide there are a deck and findings naming just these for which swapping the two changes the fixed deck |
| FixLimits.OrderFreeIff | backend/app/services/finding_service.py:110-115 | knowing of the findings only slide and rule, the order they come in cannot matter exactly when no slide has an alignment together with another finding |
| RowOrder.SameSetDifferentDecks | backend/app/services/finding_service.py:110-115 | one review, two runs that end with the same two findings applied and different stored decks, because the rows came back in different orders |
| FixText.NeedAfterAll | backend/core/fix.py:203-208 | after any list in which no finding of the slide asks for an alignment, a shape of it needs a rule exactly when it did before and either no finding asked for that rule on it or the rule cannot settle it |
| FixText.TextAppliesIff | backend/core/fix.py:257-264 | on a slide without an alignment an entry reads applied exactly when its shape needed the rule and no earlier finding asked for the same, or the rule cannot settle the shape |
| FixText.TextNeverRollsBack | backend/core/fix.py:210-219 | font and contrast findings never roll back a deck whose shapes all lie on their slides |
| FixService.ReviewRecord.constructor | backend/app/services/review_service.py:88-150 | an uploaded review has no findings and no fixed deck |
| FixService.ReviewRecord.PersistSuccess | backend/worker/tasks.py:234-258 | a finished worker adds its rows unflagged and stores the copy of the original, as the step function says |
| FixService.ReviewRecord.ApplyFindingFix | backend/app/services/finding_service.py:80-145 | response and new state are the step function's for whatever order the query returns the rows in, with its refusals in the code's order |
| FixService.ReviewRecord.FixSelected | backend/app/services/finding_service.py:115-135 | running the fixer on fresh copies of the selected rows and writing back by id gives each row its finding's flag |
| FixService.ReviewRecord.UpsertFixedPptx | backend/app/services/finding_service.py:148-187 | stores the deck at version 1, or one above the stored version |
| Credits.Reserve | backend/app/services/limits.py:26-54 | refused iff no administrator and both wallets empty; takes exactly one from exactly the recorded wallet, a bought credit only when no free one is left, and nothing from an administrator |
| Credits.Refund | backend/app/services/limits.py:56-66 | gives one back to the recorded wallet and moves nothing else |
| Credits.RefundUndoesReserve | backend/app/services/limits.py:26-66 | reserve then refund restores both wallets whatever happened to the admin flag between |
| Credits.StepBalance | backend/app/services/review_service.py:88-150 | any one step of an upload, worker, deletion or login keeps wallet plus uploads in flight plus non-failed charged reviews, unless it is a worker's write to a failed review, which adds one |
| Credits.RunBalance | backend/worker/tasks.py:298-343 | over every interleaving, with no assumption on job delivery, the total is the starting total plus the number of worker writes to failed reviews |
| Credits.CleanDeliveryConserves | backend/worker/tasks.py:318-343 | when no job starts for a failed review or one with a live execution there are no such writes, and each wallet's total is constant |
| Credits.RestartOfFailedMints | backend/worker/tasks.py:325-331 | starting a failed review again and failing it again leaves its wallet one higher |
| Credits.SecondDeliveryGivesACredit | backend/worker/tasks.py:318-343 | from one user with one free credit: an upload, its job failing, the job delivered again and failing again leave two credits |
| Credits.WalletsStayNonNegative | backend/app/services/limits.py:41-48 | no interleaving makes a wallet negative |
| Credits.WalletMoves | backend/app/services/limits.py:32-64 | a wallet moves only by a reservation of that user on that source, or by the abort or failure of an upload or review recorded on it; an administrator's review moves none |
| Credits.NoMoreReviewsThanCredits | backend/app/services/limits.py:23-54 | under clean delivery, charged reviews plus uploads in flight never exceed the starting wallet |
| CreditService.Database.CheckAndReserve | backend/app/services/limits.py:26-54 | the loop of conditional decrements over the two wallets is the reservation function |
| CreditService.Database.RefundCredit | backend/app/services/limits.py:56-66 | updates the user as the refund function says |
| CreditService.Database.CreateReview | backend/app/services/review_service.py:88-152 | an upload that commits has taken one credit from the wallet it names and left its review queued and its job enqueued; one that raises leaves wallets and reviews as they were, with the job enqueued only if it raised after that; a refused one changes nothing |
| CreditService.UploadWrites | backend/app/services/review_service.py:88-152 | the reservation step followed by queueing and commit, or by the abort at the point it raised, come to the same |
| CreditService.Database.MarkFailed | backend/worker/tasks.py:298-315 | the review is failed and its recorded wallet refunded, nothing else |
| CreditService.Database.ProcessReview | backend/worker/tasks.py:318-343 | a delivered job leaves its review done when the pipeline succeeds, failed and refunded on the recorded wallet when it fails, and processing when the worker dies, and changes nothing else; for a review that is not there it does nothing |
| CreditService.Database.EndJob | backend/worker/tasks.py:234-315 | the end of the pipeline writes done, or failed with the refund, or nothing |
| CreditService.JobWrites | backend/worker/tasks.py:318-343 | the start step and its end step come to the same |
| Lifecycle.StepReviews | backend/worker/tasks.py:262-343 | a review's status changes only from a start to processing, a finish to done or a failure to failed, with owner and wallet kept; it appears queued at its upload's commit and leaves at its deletion alone |
| Lifecycle.StepRunning | backend/worker/tasks.py:318-343 | an execution starts when a queued job finds its review and ends by its own finish, failure or loss, always for the review it started for |
| Lifecycle.UnqueuedIsUntouched | backend/app/services/review_service.py:88-150 | over every interleaving a review whose job is not queued is worked on by no one and its row stays as it is |
| Lifecycle.DoneIffFinishedLast | backend/worker/tasks.py:262-343 | over every interleaving a review is done exactly when the last of the starts, finishes and failures about it was a finish |
| Lifecycle.DoneStays | backend/worker/tasks.py:262-343 | once done, with no execution left and no further start, a review stays done over every run until it is deleted, and is kept as done then |
| Lifecycle.OneDeliveryDoneStays | backend/worker/tasks.py:318-343 | over every run that delivers its job at most once, a review done at some moment is done from then on until it is deleted |
| Lifecycle.RedeliveryReopens | backend/worker/tasks.py:325-331 | a second delivery of its job puts a done review back to processing |
| Lifecycle.StepAdmin | backend/app/services/limits.py:26-40 | an administrator's flag is what its last change made it; no other step moves it |
| CreditService.Database.RemoveReview | backend/app/services/review_service.py:307-339 | deletion removes the review and moves no wallet |
| Aggregate.Dedup | backend/core/aggregate.py:66-82 | the nested loop with its early exit keeps exactly the greedy scan of the input |
| Aggregate.DedupIsGreedy | backend/core/aggregate.py:66-82 | a subsequence with no later finding a duplicate of an earlier kept one, which is one on the same slide that overlaps it beyond the threshold and that the judge calls the same; every dropped one has an earlier kept witness; one without a box is always kept |
| Aggregate.DedupIsIdempotent | backend/core/aggregate.py:66-82 | with a judge that answers by content a second pass drops nothing |
| GreedyScan.GreedyIsUnique | backend/core/aggregate.py:66-82 | those properties leave no choice: only the scan's selection has them |
| Aggregate.GroupBySlide | backend/core/aggregate.py:93-95 | the dictionary holds each slide's findings in order, its keys in order of first appearance |
| Aggregate.CapPerSlide | backend/core/aggregate.py:92-107 | for any quota the loop over groups gives what each slide shows, joined, or raises where one slide does; with a quota of at least one it never raises |
| Aggregate.RunAggregator | backend/core/aggregate.py:55-64 | dedup, cap and report sort in that order, for any quota; with a quota of at least one it is the report described below |
| Aggregate.QuotaBelowOne | backend/core/aggregate.py:99-106 | a quota of zero raises on any finding, a negative one exactly when some slide has no more findings than it is below zero, and where it does not raise the report accounts for every finding twice |
| Aggregate.ReportShowsEachSlide | backend/core/aggregate.py:55-107 | of every slide and of the deck level the report has exactly the first quota of its deduplicated findings in stable severity order, then one entry with the exact number hidden iff there are more |
| Aggregate.ReportIsSorted | backend/core/aggregate.py:58-63 | the report is sorted by severity, then slide, the deck level counting as -1 |
| ReportContents.ReportRanksSeverities | backend/core/aggregate.py:20-63 | every CRITICAL entry stands before every MAJOR one and every MAJOR before every MINOR one, equally severe ones in ascending slide order |
| ReportContents.ReportShowsMostSevere | backend/core/aggregate.py:92-107 | of every slide and of the deck level the report has all findings, most severe first, or a full quota none of which is less severe than any finding left out, then one MINOR entry of the first one's category with the number left out |
| ReportContents.CriticalIsHiddenLast | backend/core/aggregate.py:92-107 | a slide hides a CRITICAL finding only behind a full quota of CRITICAL ones |
| Aggregate.ReportCountsEverything | backend/core/aggregate.py:92-107 | shown plus hidden is the number of deduplicated findings |
| StableSort.SortFilter | backend/core/aggregate.py:99 | sorting and selecting commute, so every selection keeps its stable order |
| StableSort.SortStable | backend/core/aggregate.py:58-63 | elements with equal keys keep their input order |
| Score.DeckScore | backend/core/aggregate.py:124-128 | between the floor and 100, and within half a point of the raw score when that is between them |
| Score.DefaultScoreIs | backend/core/aggregate.py:110-128 | by default the raw score is 100 less 12 points for each CRITICAL, 5 for each MAJOR and 1 for each MINOR finding over the slide count, no slides counting as one |
| Score.DeckScoreIs | backend/core/aggregate.py:124-128 | the raw score rounded, ties to even, cut to the floor and 100 |
| Score.AggregationWeight | backend/core/aggregate.py:55-107 | a report weighs no more than its input, and at most a full quota and one minor entry per slide with findings |
| Score.AggregationNeverLowersScore | backend/core/aggregate.py:110-128 | the score of a report is at least the score of its input |
| Score.DefaultScoreBound | backend/core/constants.py:122-124 | with the default weights the raw score loses at most 12 * quota + 1 per slide with findings, over the slide count |
| ReportOrder.DeckLevelFirstIff | backend/core/aggregate.py:58-63 | among equally severe entries, overflow entries included, a deck-level one stands before one of slide s exactly when s is above -1, or is -1 and the deck level appears first in the input |
| ReportOrder.NegativeSlidesComeFirst | backend/core/aggregate.py:58-63 | an input whose finding on slide -2 is reported before the deck level, and the two orders of a tie on slide -1 |
| Rounding.RoundHalfEven | backend/core/aggregate.py:128 | the result is within a half, and even on a tie |
| Rounding.RoundUnique | backend/core/aggregate.py:128 | nothing else is |
| Geometry.Box2dToBBox | backend/core/geometry.py:9-31 | for any list of integers, no frame or a positive-area box in the unit square; kept iff four numbers whose ordered edges meet the open range on both axes |
| Geometry.Box2dEdgeOrderIrrelevant | backend/core/geometry.py:24-26 | swapping opposite edges changes nothing |
| Geometry.Box2dExact | backend/core/geometry.py:23-31 | ordered edges in range are only rescaled by 1000 |
| Geometry.Box2dCovers | backend/core/geometry.py:23-31 | for any four numbers a point of the slide is in the frame exactly when, in thousandths, it lies between the named edges |
| Geometry.BoxIouFacts | backend/core/geometry.py:51-61 | IoU lies in 0..1 |
| Geometry.OverlapIsCommonLength | backend/core/geometry.py:54-57 | on one axis the overlap is the length of the common part of the two intervals |
| Geometry.IouIsQuotient | backend/core/geometry.py:51-61 | IoU times the area of the union is the area of the intersection |
| Geometry.IouSymmetric | backend/core/geometry.py:51-61 | IoU is symmetric |
| Geometry.IouZeroIffDisjoint | backend/core/geometry.py:51-61 | IoU is 0 iff no point lies strictly inside both boxes |
| Geometry.IouOneIffEqual | backend/core/geometry.py:51-61 | IoU of positive-area boxes is 1 iff they are equal |
| Geometry.ProjectionUnclamped | backend/core/geometry.py:34-48 | for a crop on the slide and a box in the crop's frame no clamp acts and the result lies in the crop |
| Geometry.ProjectionPreservesIou | backend/core/geometry.py:34-61 | projecting two boxes through a positive-area crop keeps their IoU |
| Geometry.ProjectionComposes | backend/core/geometry.py:34-48 | projecting through two nested crops is projecting through their projection |
| Zoom.CropOf | backend/core/analyzers/zoom.py:112-117 | the crop is never empty and never leaves the image |
| Zoom.CropIsFaithful | backend/core/analyzers/zoom.py:112-117 | each edge is within half a pixel of the requested one, unless the region rounds to nothing and the crop is the whole image |
| Zoom.ActualRegion | backend/core/analyzers/zoom.py:131-136 | the recorded region has positive area and lies on the slide; its edges are given next |
| Zoom.ActualRegionEdges | backend/core/analyzers/zoom.py:131-136 | times the image's width and height the region's four edges are exactly the crop's left, right, top and bottom |
| Zoom.IsDuplicate | backend/core/analyzers/zoom.py:27-35 | yes iff some known box overlaps beyond the threshold; never for a finding without a box |
| Zoom.ProcessSlide | backend/core/analyzers/zoom.py:63-90 | accepts the greedy scan of all zooms' findings over the slide's own, with one full-tier call per usable region and at most the configured number |
| Zoom.RegionStep | backend/core/analyzers/zoom.py:63-90 | a region with a frame adds every item of its own zoom's answer in order, moved onto the slide, and one call; a region without one adds neither |
| Zoom.UsableIsCount | backend/core/analyzers/zoom.py:71-78 | the calls counted are the number of regions that have a frame |
| Zoom.EveryItemIsProposed | backend/core/analyzers/zoom.py:66-90 | every item of the zoom into each of the first so many regions is a candidate, at its place in that region's crop |
| Zoom.AcceptedApart | backend/core/analyzers/zoom.py:27-35 | no accepted box overlaps another accepted or a known one beyond the threshold |
| Zoom.RefusedIffOverlaps | backend/core/analyzers/zoom.py:83-89 | the candidate at a place is refused exactly when it overlaps a known finding, or one accepted at an earlier place, beyond the threshold |
| Zoom.AcceptedInsideCrops | backend/core/analyzers/zoom.py:79-86 | every accepted finding is an item of the zoom into one of the first so many regions; its box, if any, lies on the slide with positive area, each edge, in pixels, at the crop's edge plus the item's fraction of the crop's size, for the crop that region asks for |
| Recurring.JaccardByCounting | frontend/src/lib/recurringFindings.ts:22-28 | counting shared words and inclusion-exclusion give intersection over union, 0 for a title without words |
| Recurring.JaccardFacts | frontend/src/lib/recurringFindings.ts:22-28 | symmetric, in 0..1, and 1 iff the same non-empty words |
| Recurring.GroupedPartitions | frontend/src/lib/recurringFindings.ts:43-54 | every slide-attributed finding is in exactly one group |
| Recurring.GroupedLed | frontend/src/lib/recurringFindings.ts:46-53 | members share the founder's category and reach the similarity with it, and reach it with no earlier founder |
| Recurring.GroupsByTitle | frontend/src/lib/recurringFindings.ts:41-54 | in the groups behind a report each finding is counted as often as in the input, has the category of its group, shares at least the given part of its words with the founder's and less with every earlier group of its category |
| Recurring.NothingIsLost | frontend/src/lib/recurringFindings.ts:41-54 | every slide-attributed finding is in the groups as often as in the input |
| Recurring.FoundersAreTheScan | frontend/src/lib/recurringFindings.ts:43-54 | the founders are the greedy scan: none matches an earlier one, every other finding matches one before it |
| Recurring.FindRecurringPatterns | frontend/src/lib/recurringFindings.ts:37-75 | filter, grouping loop, summaries and stable sort give the specified report |
| Recurring.SlidesAscending | frontend/src/lib/recurringFindings.ts:58 | the slide list is strictly ascending and holds exactly the members' slides |
| Recurring.Worst | frontend/src/lib/recurringFindings.ts:61-64 | CRITICAL iff some member is, MINOR iff all are; a member's severity, at least as bad as every member's |
| Recurring.Shortest | frontend/src/lib/recurringFindings.ts:65-68 | a member's title, no longer than any and the first such |
| Recurring.ReportDescribesGroups | frontend/src/lib/recurringFindings.ts:56-74 | every entry describes a group with enough distinct slides, and entries are sorted by severity, then most slides |
| Recurring.ReportIsComplete | frontend/src/lib/recurringFindings.ts:57-70 | every group with enough distinct slides is reported |
| Recurring.ReportRanks | frontend/src/lib/recurringFindings.ts:71-74 | entries come by severity, and equally severe ones by the number of slides, most first |
| SlideTimings.SlideTimingTracker.Start | frontend/src/lib/slideTimingTracker.ts:17-20 | a new recording replaces whatever was there |
| SlideTimings.SlideTimingTracker.SwitchTo | frontend/src/lib/slideTimingTracker.ts:26-31 | closes the last entry, if any, and opens one at the same moment |
| SlideTimings.SlideTimingTracker.Stop | frontend/src/lib/slideTimingTracker.ts:34-41 | closes the open entry, leaves a closed one alone, and returns exactly the closed entries in order |
| SlideTimings.RecordedVisits | frontend/src/lib/slideTimingTracker.ts:17-41 | start, any turns and stop give one visit per turn, from its moment to the next one's |
| SlideTimings.StoppingTwice | frontend/src/lib/slideTimingTracker.ts:34-41 | stopping again changes no visit |
| SlideTimings.RecordingTiles | frontend/src/lib/slideTimingTracker.ts:17-41 | with a clock that never runs back the visits start at 0, each starts where the one before ends, and the last ends at stop |
| SlideTimings.DurationsAddUp | frontend/src/lib/slideTimingTracker.ts:17-41 | durations sum to the elapsed time |
| SlideTimings.WindowsFromSlideTimings | backend/core/analyzers/crossmodal.py:126-129 | the dictionary built entry by entry |
| SlideTimings.WindowIsLastVisit | backend/core/analyzers/crossmodal.py:126-129 | a visited slide's window is its last visit |
| SlideTimings.SentIffChecked | backend/core/analyzers/crossmodal.py:249-253 | the segments sent to the model with a slide are exactly those that start in its window, and none when the slide has no text |
| SlideTimings.AtMostOneSlide | backend/core/analyzers/crossmodal.py:249-253 | a segment is checked against at most one slide |
| SlideTimings.CheckedIffLastVisit | backend/core/analyzers/crossmodal.py:249-253 | a segment spoken during a visit is checked, and only against the slide then shown, exactly when that visit is its slide's last and the slide has text |
| SlideTimings.RevisitHidesFirstVisit | backend/core/analyzers/crossmodal.py:126-129 | a recording that returns to slide 1 and a moment of its first visit that is checked against no slide |
| SlideTimings.BlankSlideHidesSpeech | backend/core/analyzers/crossmodal.py:252-253 | a recording of one slide without text is checked nowhere |
| SlideTimings.SegmentsChecked | backend/core/analyzers/crossmodal.py:292-311 | over a whole recording: at most one slide always, exactly one when no slide was revisited and every visited slide has text |
| SlideTimings.AllCheckedIff | backend/core/analyzers/crossmodal.py:292-311 | no moment of a recording goes unchecked exactly when every visit that took time was its slide's last and showed a slide with text |
| ApiClient.EveryInterleaving | frontend/src/api/client.ts:75-167 | in every interleaving at most one refresh is in flight, no request sends more than twice, callers that joined the same refresh were told the same, and the listener last heard the tokens held |
| ApiClient.JoinsOnce | frontend/src/api/client.ts:106-111 | a request that joined a refresh never joins another |
| ApiClient.ResponseSettles | frontend/src/api/client.ts:106-123 | 200 to 299 settles a request as fine and any other status as that error, except that a first 401 of an authorised request waits while there is a refresh token; a send that throws settles it as a network failure |
| ApiClient.ListenerHears | frontend/src/api/client.ts:60-68 | tokens move only by a sign-in, a sign-out or the end of the refresh in flight, to the pair it brings or to none, and the listener of the moment is told just that |
| TokenRefresh.UnauthorizedIsRetried | frontend/src/api/client.ts:106-111 | whatever happens between: a first 401 waits for the refresh in flight and cannot resume before it ends; its success installs the new pair and the request is sent again, its failure drops the tokens and lets the 401 through |
| TokenRefresh.StaysSignedOut | frontend/src/api/client.ts:140-167 | without tokens no refresh starts, and only one already in flight can bring a pair back |
| TokenRefresh.SignOutSticksIff | frontend/src/api/client.ts:151-163 | after signing out the tokens stay away over every run without a new sign-in exactly when no refresh was in flight |
| TokenRefresh.SignOutUndone | frontend/src/api/client.ts:151-163 | a run from a fresh client in which signing out during a refresh ends with a token pair held |
| ApiClient.StepMeasure | frontend/src/api/client.ts:75-167 | every response, refresh end and resumption strictly lowers a measure that a new request raises by four |
| ApiClient.WorkIsBounded | frontend/src/api/client.ts:75-167 | over any run these steps are at most four per request |
| ApiClient.NeverStuck | frontend/src/api/client.ts:140-167 | an unsettled request, or the refresh it waits on, can always move |
| ApiClient.ApiClientObject.SetTokenPair | frontend/src/api/client.ts:64-68 | both tokens change together and the listener is told |
| ApiClient.ApiClientObject.OnResponse | frontend/src/api/client.ts:106-123 | from a response to the next await or the end is the response step |
| ApiClient.ApiClientObject.RefreshAccessToken | frontend/src/api/client.ts:140-167 | nothing without a refresh token; joins the running refresh, else starts exactly one |
| ApiClient.ApiClientObject.OnRefreshDone | frontend/src/api/client.ts:151-163 | tokens are set or dropped before the shared promise is cleared |
| ApiClient.ApiClientObject.OnResume | frontend/src/api/client.ts:107-110 | from the verdict to the second send or the error is the resumption step |
| LlmClient.ChatWithRetries | backend/core/llm/client.py:277-327 | the first reply that is not a retried rate limit decides, sleeps double from one second, and no attempt is made when none is configured |
| LlmClient.ExchangeIsDetermined | backend/core/llm/client.py:277-327 | that description fixes the exchange |
| LlmClient.Complete | backend/core/llm/client.py:215-257 | accepted text at once, else one repair exchange; on success the context pays the input tokens at the input rate and the output tokens at the output rate, per million, of all answers together, and nothing when it raises |
| LlmClient.CostPerMillion | backend/core/llm/utils.py:13-18 | a million input tokens cost the input rate and a million output tokens the output rate |
| LlmClient.CostAdds | backend/core/llm/client.py:233-254 | two answers together cost what each would, every token at its own rate |
| LlmClient.CompletionUsesEveryAnswer | backend/core/llm/client.py:221-247 | the text is the last call's answer, and accepted, and the usage is that of the one or two answers among all its calls |
| LlmClient.RaisesOnlyAfterRepair | backend/core/llm/client.py:221-241 | a completion raises only when no call is configured, its last call raised, or a second answer was not accepted either |
| LlmClient.CompletionIsBounded | backend/core/llm/client.py:215-241 | at most 2 * (retries + 1) calls and 2 * (2^retries - 1) seconds of sleep |
| LlmClient.CompletionIsDetermined | backend/core/llm/client.py:215-257 | the provider and the configuration fix the outcome, and the usage when it succeeds |
| LlmClient.Lookup | backend/core/llm/config.py:43-50 | the value of the longest key the model name starts with, else the fallback |
| LlmClient.LookupIsDetermined | backend/core/llm/config.py:43-50 | that value is unique, so the table's order does not matter |
| ContactSheet.SplitIntoGroups | backend/core/analyzers/deck.py:28-31 | raises exactly for no slides or a sheet size of zero; otherwise the groups join back to the slides, are at most the allowed number, none empty, and none over the limit whenever the deck fits |
| ContactSheet.GroupsAreBalanced | backend/core/analyzers/deck.py:28-31 | the slides go over as few sheets as hold them, or the allowed number if fewer, in groups of the least size that does, the last possibly smaller |
| ContactSheet.RenderGrid | backend/core/analyzers/deck.py:93-99 | thumbnails go row by row from the top left, every one inside the sheet and no two overlapping |

## Left out

- FixReview.StoredDeckIsReplay: calls on one review are taken one after another, as nothing in the source locks it, and only reviews of a .pptx deck are meant.
- FixReview.RedeliveryForgetsTheFixes: in a row order other than the last click's the condition is exact only when no applied alignment shares a slide with another applied finding; otherwise the order itself decides (`RowOrder.SameSetDifferentDecks`).
- FixReview.SetFlagGuarantee: with an applied alignment on the slide the shape a finding aims at depends on the edits before it; a flag then says only that the finding applied at the click that set it (`FixReview.ApplyFixKeepsCoherence`).
- FixLimits.OrderFreeIff: exact for what slides and rules alone decide; for a given deck two findings that clash may still commute.
- FixLimits.DistinctIdsIff: exact for what the ids alone decide; with repeated ids `FixProperties.AllChangedShapesOnSlide` says what every changed shape of a given fix satisfies.
- Credits.CleanDeliveryConserves: clean delivery is an assumption about the job queue; the source has no guard for it. A commit that fails is taken to have left no row behind, and one that marks a deleted review failed to have rolled its refund back with it.
- Score.AggregationNeverLowersScore: for weights that are not negative and under which a minor finding weighs least, the default ones among them.
- LlmClient.CompletionIsBounded: for a configured number of retries of zero or more; with fewer the source makes no call and `ChatWithRetries` says so.
- LlmClient.Complete: the whitespace stripped from a plain-text answer is not modelled.
- ContactSheet.SplitIntoGroups: the limits are natural numbers, as the constants are.
- ApiClient.EveryInterleaving: `fetch` is taken never to throw before its first await, and the token pair of a successful refresh to be complete. A listener is up to date from the first change after it is set.
- Floating point: IoU, scores, luminance and costs are exact.
- Reading and writing files: saving and reopening a presentation is the identity, and the log file, the annotated images and the PDF are not modelled.
- Inherited placeholder positions and non-text shapes in python-pptx: a shape has its own optional frame, text and fill.
- Upscaling the crop and naming files in the zoom pass: only the covered region matters to the findings.
- Validation of uploads, file assets, events, e-mails, metrics, expiry of stored files other than the original and the fixed deck: I/O around the modelled steps.
- `_align_slide_windows`, the pacing thresholds and `analyze_rehearsal`'s assembly of findings: a heuristic without a promise, and concatenations.
- Audio transcription cost and the tracing spans: one multiplication, and logging.
- Liveness of reviews: a job may run before its row commits, and a failure while storing the results leaves a review processing.
- HTTP routes, authentication, the other analyzers, prompts and the user interface.
