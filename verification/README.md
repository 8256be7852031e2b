# Direct-mail layout, link minting and pipeline: a verified model

The project models the decision logic behind a direct-mail platform and proves what callers rely on.

* **Layout engine** (`Geometry`, `Dsl`, `Kiwi`, `Translate`, `Validators`, `Solver`, `SolverGuarantees`, `ChainHeights`): a constraint language for mailer elements is reference-checked, compiled to linear terms, solved, rounded to four decimals and post-checked. The simplex solver is an oracle with one contract (`Kiwi.Sound`): what it accepted, it solves with every required term satisfied. `SoundSolverExists` shows the contract can be met. What escapes from `solve` is characterised exactly under a second, named contract (`Kiwi.Complete`: nothing is refused while the required terms still have a common solution); `ContractsAreCompatible` shows that both can be met at once.
* **Mailer binding** (`MailerSpec`, `Panels`, `Binder`, `BinderGuarantees`): a mailer specification in inches becomes named pixel rectangles: canvas, trim, panels, safe areas, glue strips, fold gutters, face zones and aliases.
* **Design cache** (`DesignStore`, `DesignGuarantees`, `DesignHistories`): scaffolds and designs with cached solver output, on top of the two parts above.
* **Link minting** (`DubLinks`, `Minting`, `MintingGuarantees`): a chunked, retryable protocol between a link provider and a table with `ON CONFLICT DO NOTHING`, one transition per SQL statement or provider call, so that any number of runs can interleave.
* **Pipeline drivers** (`Pipeline`, `PipelineGuarantees`, `PipelineRuns`): actor/verdict steps with a redo loop, a shared upstream mapping, the terminal states and the fan-out phase. Agents, clock and fan-out tables are oracles that may depend on everything asked so far.
* **Smaller stores** (`SpecForest`, `Suppression`, `Pieces`, `Briefs`): the audience-spec revision forest, the suppression list behind the pre-send gate, the piece upsert, and the brief acceptance rules.

Floats are exact reals; Python dictionaries whose order matters are sequences. Where the source loops and appends or updates rows, the model has a method with a loop or a class with a `modifies` clause, each proved equal to a specification function; the theorems are about those functions.

## Where the code differs from its documentation

The model follows the code.

* A name used as the reference of an alignment or anchor must be a declared zone. Comments allow other elements, but the reference check never does (`Translate.ElementReferenceRejected`).
* The reference check splits `element.width` at the first dot, the solver at the last. An operand with two dots passes the check and then fails with a KeyError (`Translate.TwoDotsFail`); the two splits agree exactly on one dot (`Dsl.SplitsAgree`).
* A gap of strength weak emits its preferred size at its own strength, so there the preference is part of the terms (`Translate.MeaningPreserved`).
* Contradictory size hints, with a ceiling below zero or below the floor in either direction, are not reported as a conflict; the solver's exception escapes from `solve` (`SolverGuarantees.ContradictoryHintsEscape`). After a clean reference check with the zones bound, they and missing stems are all that escapes (`SolverGuarantees.EscapesExactly`).
* The overlap test reports slivers: a pair with a side of half a pixel or less can be reported although it shares no patch thicker than that (`Geometry.SliverIsReported`). For a given box the test is exact against all sturdy boxes if and only if the box is sturdy itself (`Geometry.ExactIffSturdy`).
* Negative coordinates always count as on the grid, because C's `fmod` is not positive there (`Validators.OnGridExact`).
* The zone `trim` is the frame panels are laid out in exactly when both bleeds are given or there is no margin (`MailerSpecs.TrimZoneIsFrame`).
* Folds on both axes share the names `fold_gutter_i`. The sync script's centre check then passes only under the condition in `BinderGuarantees.SyncFoldCheckExact`; with folds on one axis it always passes.
* The minting docstring promises that a retry picks up exactly where the run left off and finds everyone who already has a link. After a transport error, a response of the wrong length or a malformed entry nothing of the run was saved, so earlier chunks are minted again; `MintingGuarantees.FullChunkLost` is such a run, with a hundred links lost. After a reported error, links later in the same response are lost too. The promise holds exactly when no minted link is dropped and the kept rows are saved (`MintingGuarantees.RetryResumesExactly`), and `MintingGuarantees.DroppedExactly` says from the answers when one is dropped.
* A fan-out step always ends the materializer run, so plain steps after it would never be called. "Completed means every plain step shipped" holds exactly when no plain step follows a fan-out (`PipelineGuarantees.CompletionCoversPlainSteps`). The current step list keeps its only fan-out last and meets that condition (`PipelineGuarantees.CurrentStepsConform`).
* An exception other than RunStepError escapes from the drivers and leaves the stored status at `running`, like a timeout (`PipelineGuarantees.StoredStatusIsExact`).
* `update_scaffold` and mailer updates leave cached positions behind. Once the scaffold has other elements, or the zone an element is required inside has gone or moved away, no validation reports the cache (`DesignGuarantees.StaleAfterElementChange`, `DesignGuarantees.StaleAfterZoneMove`). Both are reached by histories of accepted requests (`DesignHistories.ElementChangeHistory`, `DesignHistories.MailerChangeHistory`).
* `sign` does not look at the status, so a superseded spec can be signed and revised again, which leaves two drafts in one chain (`SpecForest.SignedSpecsFork`).
* An undeliverable address without one of its four required fields is not remembered, so the next send asks the provider again (`Suppression.RejectionBlocksIffNotThin`).
* The canonical address string can be shared by different addresses (`Suppression.PipesCollide`): exactly by those with a pipe inside a field that has no blank next to it (`Suppression.AddressesConfusedIffCleanPipe`).

## Model

| member | source | states |
|---|---|---|
| Geometry.OverlapIsThickIntersection | app/dmaas/solver.py:536-544 | a pair shares a patch thicker than half a pixel on both axes if and only if it is reported and no side is a sliver; the test is symmetric |
| Geometry.ExactIffSturdy | app/dmaas/solver.py:536-544 | against all boxes without slivers the test is exact for a box if and only if that box is no sliver |
| Geometry.SliverIsReported | app/dmaas/solver.py:536-544 | a concrete sliver that is reported although the common part is thin |
| Geometry.Round4Error | app/dmaas/solver.py:265-273 | rounding to four decimals, ties to even, moves a coordinate by at most 0.00005 |
| Dsl.SplitsAgree | app/dmaas/dsl.py:346-369 | the reference check and the solver name the same element exactly when the accessor has one dot |
| Dsl.ValidateReferences | app/dmaas/dsl.py:317-343 | the loops append exactly the specified error list, in order |
| Dsl.ErrorsAreExact | app/dmaas/dsl.py:317-382 | an error is listed if and only if that constraint really makes that unresolved reference |
| Dsl.NoErrorsMeansResolved | app/dmaas/dsl.py:317-343 | an empty list if and only if every reference resolves and suits the declared face |
| Kiwi.EvalDrifts | app/dmaas/solver.py:265-273 | moving every variable by at most e changes a linear form by at most e times its absolute coefficients |
| Kiwi.NearlyHolds | app/dmaas/solver.py:263-273 | a term that holds before rounding holds within that drift after it |
| Kiwi.AddAllAccepts | app/dmaas/solver.py:235-238 | stopping at the first refusal keeps the accepted list built from accepted calls alone, and complete on success |
| Kiwi.SoundSolverExists | app/dmaas/solver.py:263 | the contract assumed of the foreign solver can be met |
| Kiwi.ContractsAreCompatible | app/dmaas/solver.py:187-263 | soundness and completeness of the foreign solver can be met together |
| Translate.MeaningPreserved | app/dmaas/solver.py:290-426 | for each of the eleven linear forms and every assignment, the terms at the constraint's own strength hold within e if and only if the geometric reading does (with the preference for weak gaps) |
| Translate.LinearMeaning | app/dmaas/solver.py:326-402 | the same without the gap clause, for every linear form but the two gaps |
| Translate.AnchorMeaning | app/dmaas/solver.py:373-391 | all nine anchors with margin: one row equation and one column equation, doubled centres included |
| Translate.GapMeaning | app/dmaas/solver.py:310-324 | a gap's own-strength terms hold if and only if the gap is at least its minimum, and for weak also near its preference |
| Translate.LookupsSucceed | app/dmaas/solver.py:290-426 | after a clean reference check with zones bound, translation succeeds if and only if each ratio operand's last-dot stem is an element |
| Translate.SingleDotsTranslate | app/dmaas/solver.py:393-402 | with one dot per operand translation always succeeds |
| Translate.TwoDotsFail | app/dmaas/solver.py:393-402 | every accessor with a second dot gives a spec that passes the check and fails in the solver |
| Translate.ElementReferenceRejected | app/dmaas/dsl.py:372-382 | an alignment or anchor against a name that is not a zone is always rejected |
| Validators.OnGridExact | app/dmaas/solver.py:547-549 | on the grid if and only if negative or within half a pixel of some grid line |
| Validators.OverlapPairsExact | app/dmaas/solver.py:444-460 | no_overlap reports exactly the overlapping index pairs i < j, each once, in order |
| Validators.PairConflicts | app/dmaas/solver.py:444-460 | the nested loop yields exactly those reports |
| Validators.CheckIsExact | app/dmaas/solver.py:434-533 | a validator is silent if and only if what it stands for holds; for colours, that one outshines the other by the ratio, said without a division or an order |
| Validators.ContrastMeaning | app/dmaas/solver.py:567-571 | a contrast of at least m means one of the two colours outshines the other by m |
| Validators.ContrastRange | app/dmaas/solver.py:567-571 | the ratio ignores the order, lies between 1 and 21, and is 1 exactly for equal luminance |
| Validators.SilentIffAllPass | app/dmaas/solver.py:434-533 | the validator phase is silent if and only if every validator passes |
| Validators.OnlyValidatorConflicts | app/dmaas/solver.py:434-533 | its conflicts carry the validator phase and the index of a validator |
| Validators.RunValidators | app/dmaas/solver.py:434-533 | the loop equals the specified phase, KeyErrors included |
| LayoutSolver.Solve | app/dmaas/solver.py:134-282 | the three phases with their exits equal the specified solve |
| LayoutSolver.AddTerms | app/dmaas/solver.py:235-238 | adding terms one by one stops at the first refusal and keeps what was added |
| LayoutSolver.ValidatorsCheckable | app/dmaas/solver.py:275-276 | after a clean reference check every element a validator looks up has a position |
| SolverGuarantees.VerdictIsCoherent | app/dmaas/solver.py:156-282 | valid if and only if no conflicts; all conflicts come from one phase; positions are missing exactly when validators were never reached |
| SolverGuarantees.RequiredHoldsExactly | app/dmaas/solver.py:228-263 | before rounding, every required linear constraint reads as written |
| SolverGuarantees.RequiredHoldsOnPositions | app/dmaas/solver.py:228-273 | on the returned positions it reads as written with half a unit of the fourth decimal per coordinate |
| SolverGuarantees.QuotedBounds | app/dmaas/solver.py:303-402 | 0.0001 for inside, 0.00015 for gaps, 0.00005(1 + r) for a size ratio r |
| SolverGuarantees.ValidMeansSatisfied | app/dmaas/solver.py:156-282 | required constraints hold within the bound, and the answer is valid if and only if every validator passes, whatever its strength |
| SolverGuarantees.ChainNeverOverlaps | app/dmaas/solver.py:188-191 | in a chain of required vertical gaps with non-negative minimum no two elements overlap after rounding, adjacent or not |
| SolverGuarantees.ChainSatisfiesNoOverlap | app/dmaas/solver.py:444-460 | so a no_overlap over distinct chain elements is never reported |
| ChainHeights.ChainDepth | app/dmaas/solver.py:310-316 | in a chain of required gaps every element lies as far down as the height floors and gap minima above it add up to |
| ChainHeights.PositionedChainFits | app/dmaas/solver.py:302-316 | if both ends must lie in one zone and there are positions, the whole need is at most the zone's height |
| ChainHeights.TooTallIsNeverPositioned | app/dmaas/solver.py:235-261 | a chain that needs more height than its zone has is never positioned and never valid |
| SolverGuarantees.KeyErrorIffStemMissing | app/dmaas/solver.py:393-402 | with the zones bound and the size terms accepted, solve raises KeyError if and only if some ratio operand's last-dot stem is no element |
| SolverGuarantees.NoLookupFails | app/dmaas/solver.py:134-282 | one dot in every operand rules that out; then only a refused size hint can escape |
| SolverGuarantees.ContradictoryHintsEscape | app/dmaas/solver.py:187-214 | a ceiling below zero or below its floor, in width or height, always escapes instead of being reported |
| SolverGuarantees.FittingHintsAreAdded | app/dmaas/solver.py:187-227 | hints without such a contradiction are all accepted by a complete solver |
| SolverGuarantees.EscapesExactly | app/dmaas/solver.py:134-282 | a refusal escapes if and only if some element's hints contradict each other, and otherwise a KeyError if and only if some stem is missing |
| SolverGuarantees.HintsHoldOnPositions | app/dmaas/solver.py:187-214 | every returned size is non-negative and within its element's minimum and maximum hints up to the rounding |
| MailerSpecs.SortSorts | app/dmaas/service.py:252-256 | fold positions are sorted: ascending, the same multiset, the same length |
| MailerSpecs.TrimZoneIsFrame | app/dmaas/service.py:595-603 | the published trim equals the panels' frame if and only if both bleeds are given or no margin is left |
| MailerSpecs.TrimInCanvas | app/dmaas/service.py:241-247 | the trim lies in the canvas if and only if it is no larger |
| MailerSpecs.PixelsPreserveWithin | app/dmaas/service.py:131-132 | containment in inches and in pixels are equivalent |
| Panels.PanelNamesDistinct | app/dmaas/service.py:208-229 | one distinct name per panel, whatever the naming scheme |
| Panels.FaceNamesApart | app/dmaas/service.py:208-229 | no outside panel shares its name with an inside panel |
| Panels.DerivePanels | app/dmaas/service.py:232-296 | the two passes produce the specified panels of both faces |
| Panels.ProperPanelsIffFoldsInTrim | app/dmaas/service.py:249-296 | all panels have non-negative size if and only if every fold lies in the trim |
| Panels.PanelsAbut | app/dmaas/service.py:249-296 | neighbours share an edge exactly, and the outer ones reach the trim's edges |
| Panels.PanelsSumToTrim | app/dmaas/service.py:249-296 | panel sizes add up to the trim extent for any fold list |
| Panels.PanelsCoverTrim | app/dmaas/service.py:249-296 | a point is in the trim if and only if it is in some panel |
| Panels.PanelsDisjoint | app/dmaas/service.py:249-296 | no point is strictly inside two panels |
| Panels.PanelInTrim | app/dmaas/service.py:249-296 | each panel lies in the trim |
| Panels.FacesShareRectangles | app/dmaas/service.py:232-296 | both faces carry the same folds + 1 rectangles under distinct names |
| Binder.PlacedWithinIffFits | app/dmaas/service.py:135-165 | an anchored rectangle lies in its parent if and only if size plus offset fit |
| Binder.DeriveGlueAndFolds | app/dmaas/service.py:299-411 | strips, explicit glue and gutters in the specified order |
| Binder.DeriveFaceZonesPostcard | app/dmaas/service.py:419-478 | the postcard loops equal the specified regions |
| Binder.DeriveFaceZonesSelfMailer | app/dmaas/service.py:486-569 | the self-mailer loops equal the specified regions, unknown panels skipped |
| Binder.BindSpecZones | app/dmaas/service.py:577-673 | filling the dictionary in place equals replaying the ordered writes |
| Binder.LastWriterWins | app/dmaas/service.py:591-668 | each name resolves to its last write, and a name never written is absent |
| Binder.SurvivingWriteResolves | app/dmaas/service.py:591-668 | a write whose name is later rewritten only with the same rectangle is what the name resolves to |
| Binder.CollisionFreeResolves | app/dmaas/service.py:591-668 | without name collisions every region, alias, legacy and base name resolves to its own rectangle |
| BinderGuarantees.AliasResolves | app/dmaas/service.py:655-668 | without collisions face name, underscore and alias resolve to the region's rectangle; a region without a face keeps the plain alias |
| BinderGuarantees.GutterCentredOnSharedEdge | app/dmaas/service.py:385-409 | gutter i is centred exactly on the edge panels i and i + 1 share, although computed separately |
| BinderGuarantees.GuttersDisjointIffSpaced | app/dmaas/service.py:385-409 | two gutters are apart if and only if their folds are a gutter width apart |
| BinderGuarantees.GutterInTrimIffInset | app/dmaas/service.py:385-409 | a gutter lies in the trim if and only if its fold is half a gutter from both edges |
| BinderGuarantees.GutterResolves | app/dmaas/service.py:591-668 | gutter names are written last and resolve to the gutters, folds along y winning |
| BinderGuarantees.PanelZoneInPanelIffFits | app/dmaas/service.py:516-553 | a panel-local zone lands inside its panel in pixels if and only if it fits in inches |
| BinderGuarantees.PostcardZoneInCanvasIffFits | app/dmaas/service.py:448-466 | a postcard zone lands in the canvas if and only if it fits |
| BinderGuarantees.PanelZoneKeepsDistances | app/dmaas/service.py:536-553 | after both frame changes a panel-local zone has its size and its own distances from the named panel edges |
| BinderGuarantees.PostcardZoneKeepsDistances | app/dmaas/service.py:461-466 | a postcard zone likewise on the canvas |
| BinderGuarantees.LegacyZoneKeepsDistances | app/dmaas/service.py:168-200 | a legacy zone likewise, and one without both sizes is skipped |
| BinderGuarantees.PostcardSafeIsInset | app/dmaas/service.py:448-456 | the safe area is the trim frame inset equally on all four sides |
| BinderGuarantees.PanelNamesResolve | app/dmaas/service.py:516-532 | without name collisions the i-th panel name resolves to the i-th panel of the fold geometry, and its safe name to that panel inset |
| BinderGuarantees.ZonesNest | app/dmaas/service.py:486-569 | zone in panel, panel in trim, trim in canvas, all at once |
| BinderGuarantees.SafeInPanelIffInsetFits | app/dmaas/service.py:522-532 | the inset panel lies in the panel if and only if the inset is between zero and both sides |
| BinderGuarantees.GlueInTrimIffThin | app/dmaas/service.py:319-363 | a glue strip lies in the trim if and only if it is no thicker than the sheet |
| BinderGuarantees.GlueHugsItsEdge | app/dmaas/service.py:319-363 | each strip runs along the whole trim edge it is named after |
| BinderGuarantees.ExplicitGlueHugsItsEdge | app/dmaas/service.py:364-384 | the explicit strip has its own size and left distance and lies against the trim's bottom or top edge |
| BinderGuarantees.CheckFolds | scripts/sync_lob_specs.py:229-255 | the sync script's two fold loops equal their specification |
| BinderGuarantees.SyncFoldCheckExact | scripts/sync_lob_specs.py:229-255 | it passes on the binder's zones if and only if no crossed fold is off centre; always with folds on one axis |
| DesignStore.Tools.SolveStored | app/dmaas/service.py:774-798 | parse, bind, derive size hints and solve, with both error exits |
| DesignStore.Tools.CheckCompatible | app/mcp/dmaas.py:303-329 | the loop stops at the first objection, which DesignGuarantees.ObjectionExact characterises |
| DesignStore.Tools.CreateScaffold | app/mcp/dmaas.py:274-346 | the new store and reply; nothing saved on any objection |
| DesignStore.Tools.UpdateScaffold | app/mcp/dmaas.py:349-423 | the solver is consulted only when a constraint specification is supplied |
| DesignStore.Tools.CreateDesign | app/mcp/dmaas.py:431-484 | saves the solved positions with the content, or changes nothing |
| DesignStore.Tools.UpdateDesignContent | app/mcp/dmaas.py:494-536 | replaces content and positions together, or changes nothing |
| DesignStore.Tools.ValidateDesign | app/mcp/dmaas.py:539-558 | re-solves the current content and changes nothing |
| DesignGuarantees.ObjectionExact | app/mcp/dmaas.py:303-329 | no objection if and only if every compatible spec is known and its solve is a valid answer |
| DesignGuarantees.SavedScaffoldSolvesEverywhere | app/mcp/dmaas.py:274-346 | a scaffold is saved if and only if its strategy is known, its slug free, its references resolve, and it solves on every compatible spec |
| DesignGuarantees.SavedUpdateSolvesEverywhere | app/mcp/dmaas.py:363-423 | an update is saved if and only if its strategy is known, the slug exists and a supplied document resolves and solves on the given specs, or on the scaffold's own when none are given |
| DesignGuarantees.CachedIsTheLastSolve | app/mcp/dmaas.py:431-536 | in every reachable store each design has a last write, and its positions are the valid solve of its content against the scaffold and mailer spec that write found |
| DesignGuarantees.ValidateReturnsTheCache | app/mcp/dmaas.py:539-558 | without a later constraint specification or mailer spec, validation reports exactly the cached positions |
| DesignGuarantees.StaleAfterElementChange | app/mcp/dmaas.py:539-558 | once the scaffold has other elements no validation reports the cached positions |
| DesignGuarantees.StaleAfterZoneMove | app/mcp/dmaas.py:539-558 | once a zone an element is required inside has gone or moved away, no validation reports the cached positions |
| DesignHistories.ElementChangeHistory | app/mcp/dmaas.py:349-423 | for every complete solver, a history of accepted requests after which validation differs from the cache: a scaffold update with other elements |
| DesignHistories.MailerChangeHistory | app/mcp/dmaas.py:539-558 | for every sound and complete solver, such a history by a mailer update, although the document still solves on the new mailer |
| DesignGuarantees.StoredPositionsSatisfy | app/mcp/dmaas.py:431-536 | with a sound solver the stored positions satisfy required constraints within the bound and pass all validators |
| DesignGuarantees.StoredOnTheSheet | app/dmaas/service.py:774-798 | an element required inside a zone on the canvas is stored on the canvas up to 0.0001 pixels |
| DubLinks.InsertGrows | app/dmaas/dub_links.py:123-183 | a committed insert only appends, keeps all three unique indexes and leaves every inserted slot taken |
| DubLinks.FreshInsert | app/dmaas/dub_links.py:123-183 | rows for free slots are all appended, or a clash on a link id aborts the statement |
| DubLinks.IndexExact | app/dmaas/step_link_minting.py:113-118 | the lookup dictionary holds exactly the recipients with a row, and that row |
| DubLinks.OneRowPerSlot | migrations/20260430T130000_dmaas_dub_links_step_recipient.sql:21-23 | two rows of one step and recipient are the same row |
| DubLinks.LinkTable.BulkInsert | app/dmaas/dub_links.py:123-183 | the row loop under the conflict rule equals the specified insert; nothing stored on a violation |
| Minting.Mint | app/dmaas/step_link_minting.py:106-309 | the run with its chunk loop, four exits, insert and relist equals the statement-level machine driven to its end |
| Minting.WalkChunk | app/dmaas/step_link_minting.py:222-283 | one response is walked to the first entry that is not a link |
| MintingGuarantees.StepSafe | app/dmaas/step_link_minting.py:106-309 | every statement keeps the indexes, only appends, and keeps the run's own invariant |
| MintingGuarantees.InterleavingsAreSafe | app/dmaas/step_link_minting.py:106-309 | under any interleaving of any number of runs: one row per slot, no row changed or removed |
| MintingGuarantees.ReturningRunsAgree | app/dmaas/step_link_minting.py:299-309 | a run that returns unblocked has one record per membership in order; two returning runs agree on every recipient |
| MintingGuarantees.EveryRowIsAnAnswer | app/dmaas/step_link_minting.py:222-283 | under any interleaving every added row is an entry the provider answered some run with, made out to that run's recipient at the entry's own place |
| MintingGuarantees.DriveIsAnInterleaving | app/dmaas/step_link_minting.py:106-309 | a sequential run is one of those interleavings |
| MintingGuarantees.RunIsForetold | app/dmaas/step_link_minting.py:106-309 | an undisturbed run's table and ending are an explicit function of the provider's and the database's answers: the first chunk not answered in full with links fixes them |
| MintingGuarantees.RunLeavesPrefix | app/dmaas/step_link_minting.py:166-297 | however a run ends it appends rows for a prefix of the missing recipients, each with the response at its own global index; how long a prefix is fixed by the ending, and the ending goes back to the answer the run stopped at |
| MintingGuarantees.SavedRowSays | app/dmaas/step_link_minting.py:256-283 | column by column, what a saved row says about its recipient and the provider's answer |
| MintingGuarantees.RetryPicksUp | app/dmaas/step_link_minting.py:113-124 | the next run's missing list is this one's without that prefix |
| MintingGuarantees.ProgressShrinks | app/dmaas/step_link_minting.py:166-297 | a run that succeeds or saves a row leaves fewer missing |
| MintingGuarantees.RetriesFinish | app/dmaas/step_link_minting.py:113-309 | at most one progressing run per missing recipient, and nobody is missing |
| MintingGuarantees.ProgressesExactly | app/dmaas/step_link_minting.py:166-297 | with somebody missing a run progresses if and only if the list succeeds, the first missing recipient gets a link, the chunk it stops at does not discard it, and the kept rows are saved |
| MintingGuarantees.RetryResumesExactly | app/dmaas/step_link_minting.py:16-20 | every recipient with a link is found by the retry if and only if no minted link was dropped and the kept rows were saved |
| MintingGuarantees.DroppedExactly | app/dmaas/step_link_minting.py:167-254 | links are dropped if and only if the answer at the stop discards them and somebody had one, or it reports an error and somebody after that entry had one |
| MintingGuarantees.FullChunkLost | app/dmaas/step_link_minting.py:208-214 | a hundred links minted, then a failure in transport: nothing is stored and the retry starts over |
| MintingGuarantees.ProductiveRetriesFinish | app/dmaas/step_link_minting.py:113-309 | as many productively answered runs as there are missing recipients leave nobody missing |
| MintingGuarantees.CompleteRunIsReadOnly | app/dmaas/step_link_minting.py:120-124 | with nobody missing the provider's answers do not matter and nothing changes |
| Pipeline.Driver.RunPair | scripts/seed_dat_gtm_pipeline_materializer.py:300-402 | the retry loop of one actor/verdict pair equals its specification |
| Pipeline.Driver.RunFanout | scripts/seed_dat_gtm_pipeline_materializer.py:413-481 | the loop over targets and the failure threshold equal their specification |
| Pipeline.Driver.RunFoundationPipeline | scripts/seed_dat_gtm_pipeline_foundation.py:169-302 | a whole foundation run: state and ending |
| Pipeline.Driver.RunMaterializerPipeline | scripts/seed_dat_gtm_pipeline_materializer.py:287-410 | a whole materializer run: state and ending |
| PipelineGuarantees.StepTranscript | scripts/seed_dat_gtm_pipeline_materializer.py:323-402 | at most four calls, actor and verdict alternating; a second attempt follows exactly an unshipped verdict and carries its redo text; the last answer fixes the ending |
| PipelineGuarantees.StoredStatusIsExact | scripts/seed_dat_gtm_pipeline_materializer.py:287-410 | the stored status is completed exactly on completion, running on timeout or an escaping exception, failed otherwise; failed_at_slug is null exactly on completion; at most four plain agent runs times the number of steps |
| PipelineRuns.EscapesExactlyOnCrash | scripts/seed_dat_gtm_pipeline_materializer.py:287-410 | in both drivers a run escapes if and only if its last answer is an uncaught exception, and no earlier answer is one |
| PipelineRuns.FourCallsPerStep | scripts/seed_dat_gtm_pipeline_foundation.py:182-287 | every single step has at most four plain agent runs, in any run of either driver |
| PipelineGuarantees.EveryCallSeesTheReplay | scripts/seed_dat_gtm_pipeline_foundation.py:182-287 | every agent is given exactly what the answered calls before it amount to; in the fan-out nothing of another target |
| PipelineGuarantees.FirstAttemptSeesEarlierSteps | scripts/seed_dat_gtm_pipeline_foundation.py:174-287 | at the first attempt of step i the mapping holds exactly the outputs and shipped verdicts of earlier steps |
| PipelineGuarantees.CompletionMeansShipped | scripts/seed_dat_gtm_pipeline_foundation.py:169-302 | completion means every step shipped (up to the first fan-out in the materializer), and no step after a fan-out is ever called |
| PipelineGuarantees.CompletionCoversPlainSteps | scripts/seed_dat_gtm_pipeline_materializer.py:287-410 | a completed materializer run shipped every plain step if and only if none follows a fan-out |
| PipelineGuarantees.CurrentStepsConform | app/services/gtm_pipeline.py:88-119 | the current step list has distinct slugs and its fan-out last, so its completed runs shipped every plain step |
| PipelineGuarantees.TargetsRowMajor | scripts/seed_dat_gtm_pipeline_materializer.py:515-519 | target a·m + b is recipient a with step b, out of exactly recipients × steps |
| PipelineGuarantees.TargetsExact | scripts/seed_dat_gtm_pipeline_materializer.py:484-520 | every recipient/step pair is a target and nothing else is |
| PipelineGuarantees.FanOutIsExact | scripts/seed_dat_gtm_pipeline_materializer.py:413-481 | the calls are laid out target by target; a record says shipped if and only if its actor and then its verdict were answered with success and the verdict ships; completed if and only if there are targets and at most half did not ship |
| PipelineRuns.RunFansOutExactly | scripts/seed_dat_gtm_pipeline_materializer.py:287-481 | a materializer run over a list with a fan-out ends before it, incomplete and without calling its actor, or ends with it, every earlier step shipped and exactly as its logged answers say |
| PipelineGuarantees.DriversAgree | scripts/seed_dat_gtm_pipeline_foundation.py:182-302 | without fan-out steps both drivers end in the same state with the same result unless the shorter deadline struck, and then one log extends the other |
| SpecForest.SpecStore.Create | app/routers/audience_specs_v1.py:206-245 | a version-1 draft without parent |
| SpecForest.SpecStore.Revise | app/routers/audience_specs_v1.py:253-331 | a draft child one version on; an active parent is superseded, a signed one stays |
| SpecForest.SpecStore.PreviewOf | app/routers/audience_specs_v1.py:338-374 | a draft moves to preview, any other status stays |
| SpecForest.SpecStore.Sign | app/services/audience_spec/evaluator.py:864-951 | sets the status to signed whatever it was |
| SpecForest.ServeKeepsForest | app/routers/audience_specs_v1.py:201-331 | over all runs parents exist, share the partner, are one version older and are neither draft nor preview |
| SpecForest.LineageShape | app/routers/audience_specs_v1.py:253-331 | the version is the depth plus one and the partner is the root's |
| SpecForest.ForkIffSecondRevision | app/routers/audience_specs_v1.py:253-331 | a request forks a path if and only if it revises an already revised spec, and then that spec is signed |
| SpecForest.PathsIffNeverForked | app/routers/audience_specs_v1.py:253-331 | over whole runs the trees are single paths if and only if no spec was revised twice |
| SpecForest.PathsWithoutSignedRevisions | app/routers/audience_specs_v1.py:253-331 | in particular when none was revised while signed |
| SpecForest.OneSpecPerVersion | app/routers/audience_specs_v1.py:253-331 | without forks a tree has one spec per version |
| SpecForest.OneActivePerTree | app/routers/audience_specs_v1.py:253-331 | without forks at most one spec of a tree is draft or preview |
| SpecForest.EveryRunKeepsTheForest | app/routers/audience_specs_v1.py:201-374 | all of it for every run from an empty store |
| SpecForest.SignedSpecsFork | app/services/audience_spec/evaluator.py:931-938 | signing a superseded spec lets it be revised again: two drafts with one parent |
| Suppression.NormalizeIdempotent | app/direct_mail/addresses.py:33-60 | normalizing a normalized address changes nothing |
| Suppression.CanonicalInjective | app/direct_mail/addresses.py:49-60 | the canonical string of an address without a pipe determines it among all addresses |
| Suppression.NormalIffNormalized | app/direct_mail/addresses.py:33-60 | the normalized values are exactly those with trimmed lower-case fields and at most five digits |
| Suppression.CanonicalDetermines | app/direct_mail/addresses.py:49-60 | among normalized values the canonical string determines the address if and only if every pipe inside a field has a blank next to it |
| Suppression.AddressesConfusedIffCleanPipe | app/direct_mail/addresses.py:44-60 | the same said of addresses: another one shares the canonical string if and only if some inner pipe has no blank next to it |
| Suppression.PipesCollide | app/direct_mail/addresses.py:44-60 | two concrete addresses that normalize differently and share the canonical string |
| Suppression.RetypedAddressIsSame | app/direct_mail/addresses.py:33-60 | padding, letter case and what follows the fifth ZIP digit do not reach the normalized address |
| Suppression.Gate.InsertSuppression | app/direct_mail/addresses.py:96-147 | one row per hash and reason, none for a thin address |
| Suppression.Gate.VerifyOrSuppress | app/direct_mail/addresses.py:167-234 | table, outcome and whether the provider was asked, for every branch |
| Suppression.BlockingExact | app/direct_mail/addresses.py:67-93 | a hash is blocked if and only if some row carries it |
| Suppression.RejectionBlocksIffNotThin | app/direct_mail/addresses.py:96-147 | an undeliverable verdict blocks the address if and only if it is not thin |
| Suppression.RejectedStaysSuppressed | app/direct_mail/addresses.py:167-234 | after it, whatever happens, every later call with the same normalized fields is suppressed before the provider is asked, skip or not |
| Suppression.RetypedStaysSuppressed | app/direct_mail/addresses.py:167-234 | so suppression survives retyping the address |
| Pieces.PieceTable.UpsertPiece | app/direct_mail/persistence.py:79-166 | inserts or merges one row and returns it; a missing id changes nothing |
| Pieces.CentsAreNearest | app/direct_mail/persistence.py:23-35 | the cents are the nearest whole number, the even one of two |
| Pieces.TagsAreFirstGiven | app/direct_mail/persistence.py:122-138 | after any upserts each campaign tag is the first non-null value its key was given |
| Pieces.KnownAreLastGiven | app/direct_mail/persistence.py:114-121 | cost, send date, deliverability and metadata are each the last non-null value given |
| Pieces.FirstAndLastColumns | app/direct_mail/persistence.py:105-121 | type, mode and creator come from the first upsert, status and payload from the last |
| Pieces.RowsAreIndependent | app/direct_mail/persistence.py:105-138 | a row depends on the upserts of its own key only |
| Briefs.EvaluateRules | app/dmaas/briefs.py:143-245 | the loops append exactly the specified failures; empty if and only if every rule holds |
| Briefs.RuleExact | app/dmaas/briefs.py:158-243 | one rule is silent if and only if what it asks holds |
| Briefs.NoTwoDominate | app/dmaas/briefs.py:158-190 | two elements of positive area dominate together only with ratios multiplying to at most one |
| Briefs.LadderComposes | app/dmaas/briefs.py:191-223 | passing hierarchy rules multiply along a ladder of any length |
| Briefs.CircleRatio | app/dmaas/briefs.py:191-223 | hierarchy rules in a circle pass only with ratios multiplying to at most one |

## Left out

- The simplex algorithm and the outcome of soft constraints: foreign code; only required satisfaction is assumed.
- The 2.4 power in relative luminance and the parsing of hex colours: a function from colour text to a luminance, or none, is a parameter.
- SHA-256 of the canonical address: any function of that string; nothing relies on it being free of collisions.
- Floating-point rounding inside arithmetic: numbers are reals, and only `round(v, 4)` is modelled.
- Folder lookup, link-domain configuration and the membership query before minting: their results are parameters of a run.
- Request shape sent to the link provider (tag names, UTM fields): only the answers matter to the table.
- Timestamps, generated row ids, the initiative id and metrics columns: they decide nothing that is modelled.
- DesignStore.Tools.UpdateScaffold: does not promise that compatible specs stay solvable, because the source re-solves only when a constraint specification is supplied.
- DesignStore.Tools.CreateScaffold: does not model the descriptive columns, which are stored as given; a scaffold is identified by its unique slug.
- Pieces.PieceTable.UpsertPiece: does not model the parsing of a price text; a price is a number or missing.
- Suppression.Gate.VerifyOrSuppress: does not model Unicode case folding, whitespace and digits outside ASCII.
- SpecForest.SpecStore.Revise: requests are atomic; two revisions interleaved between their statements are not modelled.
- Suppression.NormalizeIdempotent: ASCII letter case, blanks and digits only, as for the gate.
- SpecForest.SpecStore.PreviewOf: the evaluator's freshness and cost checks are one flag of the request.
- Binder.BindSpecZones: does not model region notes, provenance, addressability and cover panels, which no rectangle depends on.
- BinderGuarantees.CheckFolds: only the fold part of the self-mailer check. Its containment parts follow the containment lemmas; that the address window, postage and barcode zones do not overlap each other depends on the declared sizes of each stored spec and is not stated.
- Pipeline.Driver.RunPair: does not record run details, durations and summaries, only slug and status.
- Briefs.EvaluateRules: does not build message texts and rounded details.
- HTTP routing, authentication, database drivers, JSON Schema and model parsing, MCP wrappers, logging and reports: plumbing; schema acceptance and parsing appear as parameters or a well-formedness predicate.
- The remaining seed, sync and smoke scripts and plain CRUD repositories.
