# Verified model of zynk's cached and derived state

zynk is a terminal multiplexer for coding agents. This project models the parts of it that keep a
cached or derived state in step with something simpler, and proves that they do:

- **Kitty graphics** (`HostGraphics`, `GraphicsStep`, `GraphicsAgreement`, `GraphicsRuns`, `GraphicsLegacy`,
  `GraphicsLegacyScene`, `GraphicsClearing`, `GraphicsDrain`, `GraphicsConvergence`, `GraphicsDrainLoop`,
  `GraphicsDispatch`, `GraphicsReplay`, `GraphicsElision`, `GraphicsCuts`, `GraphicsFrames`, `GraphicsPixels`,
  `GraphicsRoundRobin`, `GraphicsCache`, `GraphicsBudget`, `Clipping`, `KittyWire`, `KittyReader`,
  `KittyRoundTrip`, `Base64`).
  The host graphics cache mirrors what the outer terminal holds.
  The terminal is a second state machine that executes the emitted commands. `GraphicsStep` says what
  every operation does to the cache and what it emits; the class in `GraphicsCache` does it field by
  field, loop by loop, and is proved to match. On top of that: cache and terminal never diverge, the
  drain loop ends, ends in the right state and is then quiet, with or without a byte budget; what a replay
  repairs, and from which caches a frame shows its scene, is known exactly; no layer starves; and no budgeted
  call exceeds its budget. Where equal signatures mean equal pixels, the terminal holds every placement's own
  pixels (`GraphicsPixels`); an independent reader of the escape text reads every command back
  (`KittyReader`, `KittyRoundTrip`). A *frame* collects the scene anew before every call (`GraphicsFrames`); a *drain*
  repeats the call with one list of placements (`GraphicsDrainLoop`).
- **BSP layout** (`LayoutTree`, `LayoutGeometry`, `LayoutSides`, `LayoutNavigation`, `LayoutState`,
  `LayoutResize`, `TileLayout`).
  Exact tiling, on which side every pane and border lies and how far, navigation, locality of every edit,
  rollback, which border a resize takes and where it moves, and the meaning of the focus history over any run
  of operations.
- **Agent presence detector** (`Detector`, `DetectorTask`, `ObservationSlot`). One turn of the
  detector loop as a function of everything it reads, the same turn as assignments to the loop's
  variables, and results about every run: when an exit is reported, exit before clear, when probes run and how
  many, and a shared observation slot that does not depend on the interleaving of its writers.
- **Resume commands** (`ResumeArgv`, `ResumeGrammar`, `ResumeCodex`, `ResumeCodexGrammar`, `ResumeHistory`).
  The default-deny argv scanners against a parse of the command, the grammar of what is accepted and kept, the
  rewrite laws, and what any history of saves persists.
- **Metadata tokens and shell quoting** (`MetadataTokens`, `ShellQuoting`).

## How to read it

Hashes are arbitrary functions into the id span, instants are natural numbers of milliseconds, 32-bit
float ratios are real numbers, and bytes sent to the terminal are commands except in `KittyWire`,
which spells the commands out, and `KittyReader`, which reads them without it. A pane-layer image id is
reserved for one source for the whole run (`Env.owner`). Iteration over a hash map in an order that shows in
the output is an explicit order (`Orders`, `Enumerates`), so results hold for every order. Operations on a mutable object are methods of
a class; the function each is proved equal to is the one the results are about. Automatic induction is off in
every lemma, so every induction is one that is written out.

## What turned out not to hold without a condition

- A second text blit while a placement replay is still under way is not repaired for placements the replay
  has already drawn: `request_placement_replay` does nothing while one is pending. What is missing after a
  frame is exactly what was missing and, once the replay was asked for, counts as current
  (`FrameRepairsExactly`). So cache and terminal agree after every frame that begins with no replay pending,
  whatever a blit took and whether or not the frame shows its scene (`FrameAgrees`); the paint loop always
  ends with none pending. With one call a frame a replay can be pending; the one hypothesis of the exact law,
  that a record that matches is also the one its source uses, then holds after any number of calls
  (`EveryCallIsExact`). For the drain of one list of placements the law also holds with a budget, where
  placements too large for it stay missing as well (`ReplayRepairsExactly`, `StaysMissing`). Every fixed scene
  of two visible placements has a run, from an empty cache and an empty terminal, that loses a placement to a
  second blit (`SecondBlitLosesFromScratch`).
- A frame is done when a call reports so, which does not mean that it shows its scene, because pixels are
  passed only for images the cache holds not yet. It shows exactly its scene if and only if no placement is a
  *cut* when it begins (`FrameShowsIff`; on the terminal: `FrameOnScreenIff`). Take the placements with something
  to do in the order that begins at the resume point. One of them is a cut if there are later ones and, for
  every later one, the image it waits for is there, the cut's source uses it and will leave it, no earlier one
  moves that source or wants that image, and every other source of the scene that uses it belongs to an
  earlier one. Of one call: it is done without showing everything if and only if it deletes nothing first and
  the first placement with something to do is a cut (`CallExact`). No cut exists when every image that is there and
  wanted is anchored (`AnchoredFrameShows`). The failure does not last: the next frame of the same scene always
  shows it (`NextFrameShows`). Any two images of one pane that exchange their contents, with no ids colliding,
  have a run from an empty cache and an empty terminal in which the frame after the exchange is done without
  showing them, and the one after it shows them (`ExchangedFromScratch`).
- No source refers to an image that an operation deleted, except that the terminal-only update can delete
  an image when one placement moves on and send it again for a later placement (`LegacyMapsDeletedAgain`). It
  is there and used in the end if and only if a later visible placement with pixels wants it
  (`LegacyMapsAgainIff`). Of an image that any operation deletes nothing is left if and only if it does not
  send it again afterwards (`EventForgetsDeleted`); the incremental call and the clearing operations never do.
- Rewriting a rewritten command for another session gives what rewriting the original gives if and only
  if the session value does not start with `-`, or is itself one of the tokens the scanner removes
  (`RewriteComposesIff`, `CodexComposesIff`).
- The terminal-only update shows a visible placement if and only if its image was there, or its pixels were passed,
  when it had its turn (`LegacyShowsIff`): an image deleted for an earlier placement is not there any more.
- A quoted SSH target reads back if and only if it contains no NUL (`SshCommandReadsBackIff`).
- A placement is cut to exactly its cells inside the pane except when its position is the smallest
  32-bit integer, which cannot be negated (`VisibleIsIntersectionIff`).

## Model

| member | source | states |
|---|---|---|
| HostGraphics.ProbeImage | src/kitty_graphics.rs:1211-1224 | A probed terminal image id lies in the reserved span and never holds a different signature |
| HostGraphics.ProbeImageComplete | src/kitty_graphics.rs:1211-1224 | Probing fails if and only if every id of the span is taken by another signature |
| HostGraphics.ProbeFindsUploaded | src/kitty_graphics.rs:1211-1224 | After uploading under the probed id, probing finds that same id again |
| HostGraphics.ProbePlacement | src/kitty_graphics.rs:1259-1272 | A probed placement id lies in its span and its slot is free or belongs to the same placement source |
| HostGraphics.ProbePlacementComplete | src/kitty_graphics.rs:1259-1272 | Probing for a placement fails if and only if every id of the span shows something else of that image |
| HostGraphics.LayerLessTotal | src/kitty_graphics.rs:686-691 | The order in which dead layers are swept is a strict total order on them, so the sweep is deterministic |
| Clipping.VisibleIsIntersectionIff | src/kitty_graphics.rs:1483-1527 | On one axis the visible cells are exactly the placement's cells inside the pane, if and only if the position can be negated in 32 bits (or the overflow cannot show) |
| Clipping.PlacementIsCutToPane | src/kitty_graphics.rs:1463-1605 | A placement is dropped exactly when it shares no cell with its pane or its first visible cell lies past the image; otherwise the cells drawn are exactly the shared ones |
| Clipping.SourceInsideImage | src/kitty_graphics.rs:1563-1578 | The part of the image that is drawn is never empty and never leaves the image, whatever was asked for |
| Clipping.SourceInsideRequest | src/kitty_graphics.rs:1529-1566 | Without 32-bit overflow the part that is drawn stays inside the part that was asked for |
| Clipping.WholePlacementShowsWholeSource | src/kitty_graphics.rs:1463-1605 | A placement wholly inside its pane, drawn at its cells' size, shows exactly the part that was asked for |
| Clipping.CellsKeepTheirPixels | src/kitty_graphics.rs:1529-1605 | Without 32-bit overflow every cell that is drawn shows the image pixels it shows when nothing is cut off: as many are skipped as the hidden cells take, as many drawn as the shown cells take, at least one and none past the image; the sub-cell offset stays exactly when the first cell does |
| GraphicsAgreement.AgreeIsEquality | src/kitty_graphics.rs:140-152 | Mirroring with nothing missing is equality of images and of placement geometry between cache and terminal |
| GraphicsAgreement.ResolvedFits | src/kitty_graphics.rs:1197-1272 | A resolved slot is free or the placement's own, and a terminal image found there has the same signature |
| GraphicsAgreement.ReleaseKeeps | src/kitty_graphics.rs:766-782 | Releasing a superseded image keeps integrity and agreement, never drops the image now in use, and touches no other image's placements |
| GraphicsAgreement.UpdateKeeps | src/kitty_graphics.rs:693-764 | A placement update keeps integrity, keeps cache and terminal in step, loses nothing, and puts the placement on screen if it was out of date |
| GraphicsAgreement.DeletionsKeep | src/kitty_graphics.rs:525-613 | The deletion phases keep integrity and agreement |
| GraphicsAgreement.DeletionsOnce | src/kitty_graphics.rs:525-613 | The deletion phases emit at most one deletion per call |
| GraphicsAgreement.IncrementalKeeps | src/kitty_graphics.rs:484-667 | One incremental call keeps integrity, mirroring, and the set of missing placements from growing, on every cache, budget and scene |
| GraphicsAgreement.IncrementalOnce | src/kitty_graphics.rs:484-667 | One incremental call emits nothing, exactly one deletion, or exactly the commands of one placement's update |
| GraphicsRuns.LegacyKeeps | src/kitty_graphics.rs:367-482 | The terminal-only update keeps integrity and agreement for every order of the stale placements |
| GraphicsRuns.ClearPaneSourcesKeeps | src/kitty_graphics.rs:855-882 | Dropping all pane-layer sources keeps integrity and agreement |
| GraphicsRuns.ClearAllKeeps | src/kitty_graphics.rs:965-976 | Clearing everything leaves cache and terminal both empty |
| GraphicsRuns.ClearNextKeeps | src/kitty_graphics.rs:978-1003 | One step of clearing keeps integrity and agreement |
| GraphicsClearing.ClearNextStep | src/kitty_graphics.rs:978-1003 | One clearing step deletes one thing while there is any, says it is not done exactly while anything is left, and with nothing left forgets all the rest |
| GraphicsClearing.ClearingEnds | src/kitty_graphics.rs:978-1003 | As many steps as there are records leave none, and one more leaves an empty cache |
| GraphicsClearing.DoneMeansEmpty | src/kitty_graphics.rs:978-1003 | When a step says it is done, cache and terminal are empty and no source is left |
| GraphicsClearing.TrustedIsNotSent | src/kitty_graphics.rs:897-911 | After a layer was received by another route its next update sends no pixels and deletes nothing |
| GraphicsClearing.ForgottenIsSentAgain | src/kitty_graphics.rs:913-923 | A forgotten layer leaves no trace, and its next update sends exactly its pixels and displays it |
| GraphicsClearing.ViewRestarts | src/kitty_graphics.rs:1005-1012 | Another view starts with its first placement; the same view goes on where it was |
| GraphicsRuns.EncodeLocalKeeps | src/kitty_graphics.rs:227-294 | A whole frame, with or without layer slots, visible or not, keeps integrity and agreement |
| GraphicsRuns.RunStaysInStep | src/kitty_graphics.rs:227-294 | Over every run of frames, clears and text blits the terminal holds the cache's images, shows nothing the cache does not record, and lacks only placements a blit took away |
| GraphicsRuns.RunAgrees | src/kitty_graphics.rs:227-294 | Over every run without blits cache and terminal are equal |
| GraphicsRuns.RunKeepsIntegrity | src/kitty_graphics.rs:854-1013 | In every reachable cache, layers trusted or forgotten out of band included, every placement's and every source's image is known and ids are used only by the sources they belong to |
| GraphicsRuns.OccupiedSlotIsOwn | src/kitty_graphics.rs:1211-1272 | A placement never resolves to a slot or a terminal image in use by something else |
| GraphicsRuns.NoReferenceToDeleted | src/kitty_graphics.rs:525-613 | After an incremental call no source and no placement refers to an image that call deleted |
| GraphicsRuns.ClearForgetsDeleted | src/kitty_graphics.rs:854-1003 | Nothing refers to an image that clearing pane sources, one clearing step or clearing everything deleted |
| GraphicsRuns.DeletedUnlessSentAgain | src/kitty_graphics.rs:1372-1461 | On any terminal an image that a batch of commands deletes is gone after it if and only if the batch does not transmit it after its last deletion |
| GraphicsRuns.EventForgetsDeleted | src/kitty_graphics.rs:227-482 | Of an image that any frame or clearing operation deletes nothing is left, and nothing refers to it, if and only if its commands do not transmit it after the last deletion |
| GraphicsRuns.LegacyMapsDeletedAgain | src/kitty_graphics.rs:381-440 | The terminal-only update deletes an image one placement moves on from, sends it again for the next placement and maps that one to it |
| GraphicsLegacy.LegacyMapsAgainIff | src/kitty_graphics.rs:367-482 | In a scene whose ids do not collide, an image deleted when one placement has its turn is there, and used by a source, after the terminal-only update if and only if a later visible placement that has its pixels wants it |
| GraphicsLegacyScene.LegacyShowsIff | src/kitty_graphics.rs:381-445 | A visible placement is shown after the terminal-only update, with its geometry, its image and its source using that image, if and only if its image was there or its pixels were passed when it had its turn |
| GraphicsLegacyScene.LegacyLeavesTheScene | src/kitty_graphics.rs:367-457 | Every slot in use after the terminal-only update is that of a visible placement that was shown |
| GraphicsLegacyScene.LegacyShowsTheScene | src/kitty_graphics.rs:367-457 | After the terminal-only update terminal and cache agree if they agreed before, or, whatever the terminal had lost, if the view changed |
| GraphicsLegacyScene.LegacySettles | src/kitty_graphics.rs:367-457 | When every visible placement could be shown, the update leaves all of them shown, no other slot in use and no source but those of the scene |
| GraphicsLegacyScene.LegacyIsQuiescent | src/kitty_graphics.rs:367-457 | A second terminal-only update of a settled scene emits nothing and changes nothing |
| GraphicsDrain.UpdateShrinks | src/kitty_graphics.rs:693-764 | In a fixed scene an update makes its placement current and creates no new work: nothing dead, orphaned, stale or out of date appears |
| GraphicsDrain.PruneShrinks | src/kitty_graphics.rs:549-556 | Forgetting unwanted terminal sources creates no new work and leaves only wanted sources |
| GraphicsDrain.UpdateSupplied | src/kitty_graphics.rs:766-782 | An update never takes away an image the scene counts on without having its pixels |
| GraphicsConvergence.DeletionsProgress | src/kitty_graphics.rs:525-613 | The deletion phases either remove work or find none; when they pass, only placements to show are left |
| GraphicsConvergence.DeletionsSame | src/kitty_graphics.rs:525-613 | The deletion phases touch no image, record, source or size mark the scene counts on |
| GraphicsConvergence.ServeOneProgress | src/kitty_graphics.rs:615-658 | Serving a placement creates no work; one that can be sent within the budget ends up current unless the call stops, and the call stops only after removing work |
| GraphicsConvergence.ServeOneSettles | src/kitty_graphics.rs:615-658 | A served placement ends up hidden, current, or too large and marked so, unless the call stops; nothing too large becomes sendable or loses its mark |
| GraphicsConvergence.IncrementalProgress | src/kitty_graphics.rs:484-667 | With any budget and any pixels left out, a call that reports itself incomplete strictly shrinks the set of dead sources, orphan images, stale and out-of-date placements; a complete call leaves only placements to show and ends the replay |
| GraphicsConvergence.IncrementalSettles | src/kitty_graphics.rs:484-667 | In a scene whose missing images can be sent or are too large, a complete call leaves every visible placement current, or too large and marked so |
| GraphicsDrainLoop.DrainConverges | src/kitty_graphics.rs:198-217 | Repeating the call until complete, with or without a budget, ends with nothing to delete, every visible placement current or too large and marked so, the terminal in step and nothing lost on the way |
| GraphicsDrainLoop.DrainShowsWhatFits | src/kitty_graphics.rs:615-677 | With a budget, a visible placement ends up shown if and only if its image was there or fits, and marked as too large if and only if it is not shown |
| GraphicsDrainLoop.DrainLeavesTheScene | src/kitty_graphics.rs:198-217 | Without a budget the slots in use at the end are exactly the visible placements', at their current geometry and pixels, with no orphan images |
| GraphicsDrainLoop.DrainShowsTheScene | src/kitty_graphics.rs:198-217 | From a terminal in agreement the drain ends with the terminal showing each visible placement with its geometry and image, and nothing else |
| GraphicsDrainLoop.DrainIsQuiescent | src/kitty_graphics.rs:198-217 | After the drain one more call with the same budget emits nothing and changes nothing but size marks |
| GraphicsDispatch.HiddenFrameEmpties | src/kitty_graphics.rs:227-294 | A frame that is hidden, without layer slots, leaves cache and terminal empty |
| GraphicsDispatch.HiddenSlotsFrameShowsNothing | src/kitty_graphics.rs:227-294 | A frame that is hidden, with layer slots, and complete leaves nothing on screen |
| GraphicsDispatch.SlotsFrameShowsTheScene | src/kitty_graphics.rs:227-294 | A visible frame with layer slots and complete leaves exactly its scene, with the terminal in agreement |
| GraphicsDispatch.TerminalFrameShowsTheScene | src/kitty_graphics.rs:227-294 | A visible frame without layer slots leaves terminal and cache in agreement when they agreed or the view changed, shows every visible placement that has its pixels and nothing that is not visible, and remembers the view |
| GraphicsReplay.StaysMissing | src/kitty_graphics.rs:617-664 | A missing placement that is already current, or too large, is still missing after the drain, whatever work was left |
| GraphicsReplay.ReplayRepairsExactly | src/kitty_graphics.rs:484-667 | For the drain of one list of placements with any budget: after a blit and a replay request it leaves missing exactly the placements that were missing and that the request left current or that are too large; cache and terminal agree if and only if there is none |
| GraphicsReplay.ReplayRepairs | src/kitty_graphics.rs:288-293 | For the drain of one list of placements without a budget and with no replay pending: cache and terminal agree whatever a blit took |
| GraphicsReplay.EveryFrameIsExact | src/server/headless.rs:5374 | The conditions of that law hold at every frame of any number of one-call frames with a budget, also in the middle of a replay |
| GraphicsReplay.SecondBlitLosesOne | src/kitty_graphics.rs:929-934 | Everything shown, a blit, one call, another blit, a full drain: a placement the first call had drawn is still missing |
| GraphicsReplay.SecondBlitLosesFromScratch | src/kitty_graphics.rs:929-934 | Every fixed scene with two visible placements has such a run from an empty cache and an empty terminal |
| GraphicsElision.CallExact | src/kitty_graphics.rs:615-664 | A call on a scene collected for it is done without showing everything if and only if it deletes nothing first and the first placement with something to do starves all the others that have |
| GraphicsCuts.FirstIsCut | src/kitty_graphics.rs:766-782 | The first placement with something to do is a cut exactly when it starves all the others that have |
| GraphicsCuts.ShiftCutsOff | src/kitty_graphics.rs:693-782 | Serving the first placement leaves exactly the same later placements cut off by the same ones |
| GraphicsCuts.CallCuts | src/kitty_graphics.rs:484-667 | A call that is done shows everything if and only if nothing was a cut when it began; one that is not done leaves a cut if and only if there was one |
| GraphicsFrames.FrameShowsIff | src/kitty_graphics.rs:198-217 | A frame ends showing exactly its scene if and only if no placement is a cut in the cache it begins with |
| GraphicsFrames.FrameMissing | src/kitty_graphics.rs:198-217 | What the terminal lacks after a frame is exactly what it lacked of the placements that counted as current when it began; a placement that is not shown has lost its record with its image |
| GraphicsFrames.FrameRepairsExactly | src/kitty_graphics.rs:166-219 | After a blit and a replay request a frame leaves missing exactly what was missing and that the request left current |
| GraphicsFrames.FrameAgrees | src/kitty_graphics.rs:288-293 | With no replay pending cache and terminal agree after the frame, whatever a blit took and whether or not it shows its scene |
| GraphicsFrames.FrameOnScreenIff | src/kitty_graphics.rs:166-219 | With no replay pending, whatever a blit took, the terminal shows exactly the scene after the frame if and only if no placement is a cut when it begins |
| GraphicsFrames.EveryCallIsExact | src/server/headless.rs:5374 | With one call a frame, collected anew, the conditions of these laws hold after any number of calls |
| GraphicsFrames.FittingBudget | src/kitty_graphics.rs:615-677 | A budget that every placement fits makes no difference to a call |
| GraphicsFrames.NextFrameShows | src/kitty_graphics.rs:166-219 | After any frame, whether it showed its scene or not, the next frame of the same scene shows it |
| GraphicsFrames.AnchoredNeverStarves | src/kitty_graphics.rs:766-782 | Where every image that is there and wanted is anchored, no call starves a placement |
| GraphicsFrames.AnchoredFrameShows | src/kitty_graphics.rs:198-217 | A frame that begins with every image that is there and wanted anchored shows exactly the scene |
| GraphicsFrames.ExchangedFromScratch | src/kitty_graphics.rs:693-782 | From an empty cache and an empty terminal: a frame shows two images of a pane; after their contents are exchanged a frame is done and the terminal does not show them; the next frame shows them |
| GraphicsPixels.UpdateCarries | src/kitty_graphics.rs:693-764 | Everything an update transmits is its placement's signature with all its pixels, under the image id the placement resolves to |
| GraphicsPixels.IncrementalCarries | src/kitty_graphics.rs:484-667 | Every transmission of an incremental call is that of a placement in its list, signature and pixels, under the id it resolves to |
| GraphicsPixels.LegacyCarries | src/kitty_graphics.rs:367-457 | The same for the terminal-only update |
| GraphicsPixels.EncodeLocalCarries | src/kitty_graphics.rs:227-294 | The same for a whole frame in either mode |
| GraphicsPixels.RunHoldsPixels | src/kitty_graphics.rs:227-294 | Where equal signatures mean equal pixels, over every run of frames, clears and blits the terminal holds, under exactly the image ids recorded, the pixels of the recorded signatures |
| GraphicsPixels.DrainShowsPixels | src/kitty_graphics.rs:198-217 | The drain ends with every visible placement's own pixels under its image id |
| GraphicsPixels.FrameDisplaysIff | src/kitty_graphics.rs:166-219 | Down to the pixels: the terminal displays exactly the scene after a frame if and only if no placement is a cut when it begins |
| GraphicsRoundRobin.ChoresShrink | src/kitty_graphics.rs:525-613 | A call with deletions pending leaves strictly fewer |
| GraphicsRoundRobin.EveryLayerIsServed | src/kitty_graphics.rs:510-520 | Over n calls, and one more for each pending deletion, for the same n visible layers, whose content and geometry change freely between calls and whose pixels are passed only when their image is not there, each layer is up to date right after one of the calls |
| GraphicsRoundRobin.CallReaches | src/kitty_graphics.rs:615-658 | One call serves a given layer or resumes strictly closer to it |
| GraphicsCache.HostGraphicsCache.constructor | src/kitty_graphics.rs:140-152 | A new cache is empty |
| GraphicsCache.HostGraphicsCache.ReleaseSuperseded | src/kitty_graphics.rs:766-782 | Updating the maps in place releases exactly what the release step says and emits its deletion |
| GraphicsCache.HostGraphicsCache.EncodePlacementUpdate | src/kitty_graphics.rs:693-764 | The in-place update emits exactly the update's commands and leaves exactly its cache, or reports that there is none |
| GraphicsCache.HostGraphicsCache.TryUpdate | src/kitty_graphics.rs:640-656 | A failed or postponed update runs on a copy: the cache itself does not change |
| GraphicsCache.HostGraphicsCache.ServePlacement | src/kitty_graphics.rs:615-658 | One round of the placement loop, with the size quarantine, candidate and commit, does exactly the serving step |
| GraphicsCache.HostGraphicsCache.RunDeletions | src/kitty_graphics.rs:525-613 | The three deletion loops with their early returns do exactly the deletion phases |
| GraphicsCache.HostGraphicsCache.EncodeIncremental | src/kitty_graphics.rs:484-667 | The incremental encoder emits exactly what one incremental call emits and leaves exactly its cache |
| GraphicsCache.HostGraphicsCache.Paint | src/kitty_graphics.rs:166-219 | The paint loop, collecting anew in every round, terminates, does exactly what the frame function says, leaves nothing to delete and no replay pending; it shows the scene exactly when no placement was a cut before it; on any terminal that was in step it leaves missing exactly what was missing and current, and with no replay pending before, terminal and cache agree |
| GraphicsCache.HostGraphicsCache.PlaceLegacy | src/kitty_graphics.rs:381-440 | One placement of the terminal-only update does exactly its step |
| GraphicsCache.HostGraphicsCache.EncodeLegacy | src/kitty_graphics.rs:367-457 | The terminal-only encoder emits exactly the terminal-only update for the order it visited stale placements in |
| GraphicsCache.HostGraphicsCache.ClearPanes | src/kitty_graphics.rs:855-882 | Every image that only pane layers referred to is deleted, in the order visited, and the incremental state is reset |
| GraphicsCache.HostGraphicsCache.ClearBytes | src/kitty_graphics.rs:965-976 | Every image is deleted once and the cache is emptied |
| GraphicsCache.HostGraphicsCache.ClearNextImage | src/kitty_graphics.rs:978-1003 | The smallest image id is deleted with its placements and sources, else the smallest placement, and the answer says whether anything is left |
| GraphicsCache.HostGraphicsCache.AskReplay | src/kitty_graphics.rs:929-934 | A replay request marks all placements for replay unless one is already pending |
| GraphicsCache.HostGraphicsCache.ChangeView | src/kitty_graphics.rs:1005-1012 | The view change is reported and forgets where the round-robin pass was |
| GraphicsCache.HostGraphicsCache.TrustPaneLayer | src/kitty_graphics.rs:897-911 | A layer transferred by another route is recorded with its image and signature |
| GraphicsCache.HostGraphicsCache.ForgetPaneLayer | src/kitty_graphics.rs:913-923 | A layer removed by another route is forgotten with its image and placements |
| GraphicsCache.HostGraphicsCache.Encode | src/kitty_graphics.rs:227-294 | The dispatcher runs exactly the frame the model describes |
| Base64.DecodeEncode | src/kitty_graphics.rs:1675-1689 | Strict base64 decoding (section 4 of RFC 4648) of an encoding gives the data back |
| Base64.EncodeAppend | src/kitty_graphics.rs:22 | Encodings of pieces join to the encoding of the whole when every piece but the last is a multiple of three bytes |
| Base64.AlphabetIs | src/kitty_graphics.rs:1675-1689 | The digits are the alphabet of RFC 4648 in its order |
| Base64.GroupIsNumber | src/kitty_graphics.rs:1675-1689 | Four digits and the three bytes they stand for, most significant first, are the same number |
| KittyWire.PayloadsJoin | src/kitty_graphics.rs:1675-1689 | The chunk payloads joined are the encoding of the whole data |
| KittyWire.TransferDecodes | src/kitty_graphics.rs:1675-1689 | Joining and decoding the payloads gives the pixels; the control string is in the first chunk only; exactly the last chunk says nothing follows |
| KittyWire.EncodeKittyData | src/kitty_graphics.rs:1675-1689 | The chunk loop writes exactly the frames of the transfer |
| KittyWire.TransferLength | src/kitty_graphics.rs:669-677 | The exact length of a chunked transfer |
| KittyWire.AcceptedTransactionFits | src/kitty_graphics.rs:669-677 | When the size check accepts an upload of its true length, the whole transaction with the superseded image's deletion and the display command is no longer than the budget |
| KittyWire.FitsExactly | src/kitty_graphics.rs:669-677 | The size check compares the exact length of the transfer, plus seven bytes a chunk and a kilobyte, with the budget |
| KittyWire.RefusedTransactionIsLarge | src/kitty_graphics.rs:669-677 | An upload is turned away only when the text of its transaction, with that much to spare, is longer than the budget |
| KittyWire.PayloadsAreFull | src/kitty_graphics.rs:1675-1689 | Every chunk but the last is 4096 characters of base64; the last is not empty and no longer |
| KittyRoundTrip.TransferReadsBack | src/kitty_graphics.rs:1675-1689 | Read by an independent reader, a chunked transfer gives the control fields once and in front, "more follows" on every chunk but the last and "nothing follows" on that, and payloads that decode to the data |
| KittyRoundTrip.TransactionReadsBack | src/kitty_graphics.rs:1372-1461 | Read by an independent reader, the text of any batch of commands gives the commands in order: ids, row and column, size, source window, offsets, depth, image size and format, and all the pixels |
| GraphicsBudget.UpdateFits | src/kitty_graphics.rs:693-764 | An update that passed the size check, or needs no pixels, is within the budget (or within 480 bytes when the budget is smaller), left-out pixels included |
| GraphicsBudget.DeletionsFit | src/kitty_graphics.rs:525-613 | What the deletion phases emit is within the same limit |
| GraphicsBudget.CallFitsBudget | src/kitty_graphics.rs:484-667 | A whole budgeted call, with its deletions, quarantined uploads and every other placement, never emits more than that limit, and leaves a cache for which this holds again |
| LayoutTree.RemoveKeepsOrder | src/layout.rs:636-657 | Removing a pane leaves the others in tree order, and leaves nothing exactly when it was the only pane |
| LayoutTree.SplitAtIds | src/layout.rs:599-626 | Splitting inserts the new pane right after its target in tree order |
| LayoutTree.RemoveUndoesSplit | src/layout.rs:599-657 | Removing the new pane of a split restores the tree |
| LayoutTree.SetRatioEffect | src/layout.rs:659-698 | Writing a ratio succeeds exactly where reading one does, changes that ratio only, and keeps the panes |
| LayoutTree.BorderPathsAddressSplits | src/layout.rs:518-545 | Every split border carries the path of a split with that ratio |
| LayoutGeometry.FirstExtentFits | src/layout.rs:700-719 | A ratio within [0, 1] never gives the first child more than there is |
| LayoutGeometry.PanesTile | src/layout.rs:492-516 | Every cell of the area lies in exactly one pane and no pane covers a cell outside |
| LayoutGeometry.OneRectPerLeaf | src/layout.rs:492-516 | There is one rectangle per leaf, in tree order, flagged for the focused pane |
| LayoutGeometry.SplitIsLocal | src/layout.rs:169-183 | A split replaces the target's rectangle by its two parts and moves nothing else; `LayoutSides.SplitPlacesHalves` says where the parts are |
| LayoutGeometry.CloseIsLocal | src/layout.rs:636-657 | A close gives the parent split's whole area to the sibling subtree and moves nothing else |
| LayoutGeometry.SwapMovesOnlyIds | src/layout.rs:583-597 | A swap exchanges two ids over unchanged rectangles |
| LayoutGeometry.ResizeIsLocal | src/layout.rs:659-678 | A ratio change moves only the panes below that split |
| LayoutSides.FirstExtentIsNearest | src/layout.rs:700-719 | The first child's extent is the ratio's share of the length to the nearest cell, halves up |
| LayoutSides.SplitPlacesHalves | src/layout.rs:599-626 | After a split the target and the new pane fill the target's rectangle one after the other on the axis of the split, full size on the other axis, the target with the nearest whole share; no other rectangle changes |
| LayoutSides.BorderSeparates | src/layout.rs:518-545 | Every border has all panes of its first subtree before it and all of its second at or after it, on its axis, and lies where its ratio puts it |
| LayoutResize.SplitPlacesPane | src/layout.rs:169-210 | The same for splitting a pane and inserting one in a layout, at the given ratio or the nearest from 0.1 to 0.9, one half for a number that is none |
| LayoutResize.EverySplitHasABorder | src/layout.rs:518-545 | Every split is among the borders, with its path, ratio and area |
| LayoutResize.ResizeMovesBorder | src/layout.rs:288-312 | A resize sets the ratio of its border to the old one plus the amount rightwards and down, minus it leftwards and up, or the nearest in range, and so moves the border that way |
| LayoutResize.ResizeTakesTheEdge | src/layout.rs:416-461 | A pane that is not at the requested side of the screen is resized at the border exactly at its own edge there |
| LayoutResize.ResizeFindsIff | src/layout.rs:288-312 | A resize acts if and only if the pane has a border at its edge on the requested side or the other, and on the other exactly when there is none on the requested |
| LayoutResize.FirstOfTheNearest | src/layout.rs:435-447 | Of the nearest borders the first is taken |
| LayoutNavigation.Best | src/layout.rs:359-414 | The chosen candidate has the least key by edge distance, overlap, centre distance and tree order; none is chosen exactly when there is no candidate |
| LayoutNavigation.NavigationComplete | src/layout.rs:359-414 | In a tiling of nonempty panes a pane is found exactly when the focused pane does not touch that side of the area, and the pane found shares the edge and faces it |
| LayoutNavigation.LongestNeighbourWins | src/layout.rs:359-414 | Among the panes sharing the edge the one found faces the focused pane along the most cells; of those with as many its middle is nearest; of those as near it is first in the tree |
| LayoutNavigation.OverlapCountsCells | src/layout.rs:471-475 | The overlap of two ranges is the number of coordinates they share |
| LayoutNavigation.DistanceBetweenMiddles | src/layout.rs:477-482 | The centre distance is twice the distance of the middles, while doubling stays within 16 bits |
| LayoutState.ApplyKeepsValid | src/layout.rs:108-354 | Every operation keeps panes distinct, the focus a pane, the remembered pane another pane, and ratios within [0, 1] |
| LayoutState.RunKeepsValid | src/layout.rs:108-354 | The same in every reachable layout, so position lookups never fail |
| LayoutState.ReachableLayoutTiles | src/layout.rs:138-143 | The rectangles of every reachable layout tile the screen, one per pane, with distinct ids |
| LayoutState.ReachableNavigation | src/layout.rs:359-414 | Navigation is complete in every reachable layout whose panes all have room |
| LayoutState.ResizeChangesOneRatio | src/layout.rs:288-330 | A resize changes at most one ratio, at a path that leads to a split, and reports exactly whether it changed anything |
| LayoutState.ResizePathIsASplit | src/layout.rs:299-311 | The path a resize acts on always addresses a split, so reading and writing the ratio succeed |
| LayoutState.NearestResizeSplit | src/layout.rs:435-447 | The border chosen is a candidate no other candidate is nearer than |
| LayoutState.SplitThenCloseRestores | src/layout.rs:169-259 | Splitting and closing the new pane restores tree, focus and history exactly |
| LayoutState.HistoryStep | src/layout.rs:127-132 | One operation changes the remembered pane exactly by focus moves and closes |
| LayoutState.HistoryIsLastMove | src/layout.rs:127-265 | Over every run the remembered pane is exactly the one the last focus move left, unless the focused pane or that pane was closed since |
| LayoutState.CloseReturnsToOrigin | src/layout.rs:213-239 | Closing the focused pane returns to that pane, else to the neighbour in tree order |
| LayoutState.NeighbourFollows | src/layout.rs:213-239 | The neighbour in tree order is the pane right after, or right before where there is none after |
| LayoutState.FocusStep | src/layout.rs:108-354 | One operation moves the focus exactly as the source's branches say: to the pane chosen, the pane inserted with the focus, the remembered pane or else the neighbour after a close, and not otherwise |
| TileLayoutObject.CollectPanes | src/layout.rs:492-516 | Pushing onto the caller's vector appends exactly the subtree's rectangles |
| TileLayoutObject.CollectSplits | src/layout.rs:518-545 | Pushing onto the caller's vector appends exactly the subtree's borders |
| TileLayoutObject.TileLayout.MoveFocus | src/layout.rs:127-132 | A real move remembers where it came from; focusing the focused pane changes nothing |
| TileLayoutObject.TileLayout.SplitAtPane | src/layout.rs:169-183 | The new pane's id is returned exactly when the target exists; otherwise nothing changes |
| TileLayoutObject.TileLayout.InsertPaneNear | src/layout.rs:187-210 | The insert happens exactly when the target exists and the moved pane does not |
| TileLayoutObject.TileLayout.CloseFocusedPane | src/layout.rs:213-239 | In a valid layout closing always succeeds unless it is the last pane, and validity is kept |
| TileLayoutObject.TileLayout.CloseBackgroundOrFocused | src/layout.rs:242-259 | Closing any pane, with what happens to focus and history |
| TileLayoutObject.TileLayout.Focus | src/layout.rs:261-265 | Focusing a pane that exists |
| TileLayoutObject.TileLayout.Swap | src/layout.rs:269-279 | The swap happens exactly for two different existing panes |
| TileLayoutObject.TileLayout.SetRatio | src/layout.rs:282-284 | The clamped ratio is written exactly where the path leads to a split |
| TileLayoutObject.TileLayout.ResizeFocused | src/layout.rs:288-312 | The ratio of the chosen border moves by the delta in the right direction, clamped |
| TileLayoutObject.TileLayout.Resize | src/layout.rs:314-330 | Resizing another pane borrows the focus and gives it back; the answer says exactly whether the tree changed |
| Detector.ProbeKeepsInv | src/pane.rs:811-903 | A probe clears the identity only with the agent's exit already published and nothing identified since, or on the sixth miss in a row |
| Detector.RunKeepsInv | src/pane.rs:698-1055 | The miss count and the exit flag tell the truth about the history of probes and published events in every run |
| Detector.ExitBeforeClear | src/pane.rs:2253-2612 | In every run an identity is dropped only by a reset, after an exit published for that agent with no identifying probe since, or after six missed probes in a row |
| Detector.ExitReportedOnce | src/pane.rs:333-369 | A reported exit is not reported again until a probe decides anew |
| Detector.ExitMeansShellAlone | src/pane.rs:417-437 | In every run an exit is published only of an agent and only while the latest probe, with no reset since, found no agent and saw the pane's shell in the foreground |
| Detector.ShellAloneIsReported | src/pane.rs:2373-2612 | A turn whose probe finds no agent but the pane's shell, and that may publish, publishes exactly the exit of the identified agent and keeps the identity |
| Detector.ReportedIsDropped | src/pane.rs:2373-2392 | Once the exit was reported the next probe that finds no agent drops the identity |
| Detector.OtherProgramIsAMiss | src/pane.rs:1079-1102 | A probe that finds neither agent nor shell counts as one miss, reports nothing and drops the identity on the sixth only |
| Detector.FoundIsIdentity | src/pane.rs:2388-2430 | A probe that finds an agent makes it the identity at once; another one than before is published at once and given three seconds of grace |
| Detector.FoundAgainIsPublished | src/pane.rs:2463-2477 | Under hook authority a probe that finds the agent again publishes it and nothing else |
| Detector.GraceHoldsBack | src/pane.rs:2479-2494 | In its grace time nothing is published of an agent but an exit |
| Detector.LooksEveryFiveSeconds | src/pane.rs:484-517 | While the identified agent is still there five seconds never pass after a probe without another one, and no two are closer |
| Detector.OwedLookIsTaken | src/pane.rs:472-517 | A probe runs after a reset, while an exit waits to be confirmed, after a restore, and when a release ends, hook authority notwithstanding where the source says so |
| Detector.HookAuthorityRests | src/pane.rs:472-482 | Under hook authority, with the foreground group unchanged, a turn changes nothing at all |
| Detector.SuppressedStaysHidden | src/pane.rs:2350-2360 | A suppressed agent is neither identified nor published |
| Detector.LooksWithoutAGroup | src/pane.rs:508-514 | With no foreground group and nothing identified a probe runs every thirty seconds |
| Detector.LookRemembersGroup | src/pane.rs:464-470 | A probe remembers the group it looked at, else the one observed, and none when none was observed |
| Detector.ContentOpensWindow | src/pane.rs:519-559 | The first output change while nothing is identified opens an acquisition window |
| Detector.GroupChangeOpensWindow | src/pane.rs:2388-2456 | Another foreground group in which nothing is identified is probed at once, and that opens a window anew |
| Detector.TurnKeepsWindow | src/pane.rs:484-559 | One turn leaves an open window as it was if and only if the window is not over, the screen is not read, or output did not pause for two seconds; probes run only inside it, on its two intervals |
| Detector.WindowIsBounded | src/pane.rs:484-559 | While output does not pause once the window is over, the window stays as opened, and the k-th probe, those already run included, cannot come earlier than the schedule allows |
| Detector.AtMostSevenProbes | src/pane.rs:484-559 | However a window was opened and however long output flows, the window never restarts and at most seven probes run in it, those already run included |
| Detector.GroupChangeAllowsSixMore | src/pane.rs:484-559 | After the probe that a change of the foreground group causes, at most six more run in the window it opens |
| DetectorTask.Detection.SyncContentChange | src/pane.rs:519-559 | The two time variables change exactly as the acquisition rule says |
| DetectorTask.Detection.ProbeForeground | src/pane.rs:2344-2456 | The probing half of a turn leaves exactly the modelled state and reports what it found and whether the identity changed |
| DetectorTask.Detection.ReadScreen | src/pane.rs:2498-2612 | Reading and publishing leaves exactly the modelled state, recording a published exit |
| DetectorTask.Detection.RunTurn | src/pane.rs:2253-2612 | One turn of the loop is exactly one turn of the machine |
| ObservationSlot.SlotIsNewest | src/pane.rs:210-229 | For any sequence of observations the slot holds the newest time, and an agent exactly when all observations at that time name it |
| ObservationSlot.OrderDoesNotMatter | src/pane.rs:210-229 | Any interleaving of the same observations leaves the same slot |
| ObservationSlot.LossIsFinalUntilNewer | src/pane.rs:210-229 | An observation without an agent is overruled only by a strictly newer one |
| ObservationSlot.PositiveProofIsNewest | src/pane.rs:238-293 | The slot names an agent only on the word of a probe of the pane's own foreground group that is newer than every exit, release and reset |
| ObservationSlot.SlotNamesUndisputed | src/pane.rs:238-293 | The slot names an agent if and only if a probe of the pane's own foreground group found it and everything else was written for an earlier time, or for the same with the same agent |
| ObservationSlot.SharedObservations.Write | src/pane.rs:210-229 | One writer's update in place is one more observation |
| ObservationSlot.SharedObservations.RecordForegroundProbe | src/pane.rs:239-248 | A probe counts as a find only when it looked at the pane's own foreground group |
| ObservationSlot.SharedObservations.BeforePublishing | src/pane.rs:251-270 | An exit is in the slot and among the pending exits before it is queued; other events leave both alone |
| ObservationSlot.SharedObservations.DropProof | src/pane.rs:2650-2664 | A release or reset records a loss |
| ObservationSlot.SharedObservations.Acknowledge | src/pane.rs:1595-1610 | Acknowledging removes the oldest matching exit and nothing else |
| ResumeArgv.ScanFlags | src/agent_resume.rs:588-633 | The index scan computes exactly the rewrite of the parsed command, refusing exactly what does not parse; `ResumeGrammar.RewrittenIffGrammar` says what that is |
| ResumeArgv.ItemsSpellTheInput | src/agent_resume.rs:588-633 | A parse accounts for every token of the command, in order |
| ResumeArgv.RewriteKeepsFlags | src/agent_resume.rs:588-633 | The output is the program, the original's kept flags in order, and exactly one selector with the new session, at the place of the first old one; `ResumeGrammar.RewriteIsPolicies` says which flags are kept |
| ResumeArgv.RewriteComposes | src/agent_resume.rs:588-633 | Rewriting a rewrite for another session is rewriting the original for it |
| ResumeArgv.RewriteComposesIff | src/agent_resume.rs:588-633 | That law holds if and only if the session value does not look like a flag or is itself a selector |
| ResumeGrammar.RewrittenIffGrammar | src/agent_resume.rs:588-633 | A command is rewritten if and only if it splits, in order, into session selectors (with a plain value when one follows, without, or with `=value`), allowlisted switches, allowlisted flags with one plain value, and allowlisted `--flag=value` |
| ResumeGrammar.RewriteIsPolicies | src/agent_resume.rs:588-633 | The rewrite is exactly the program, the allowlisted groups before the first selector, the new session, and the allowlisted groups after it |
| ResumeGrammar.SplitIsUnique | src/agent_resume.rs:588-633 | A command splits in one way only |
| ResumeGrammar.UnknownFlagRefuses | src/agent_resume.rs:621-623 | A flag that is on no list, by its name or the name it assigns to, or `--`, refuses the command wherever it stands |
| ResumeGrammar.PiKeyIsNeverKept | src/agent_resume.rs:489-492 | A pi command with an API key is never rewritten, so the key is never stored |
| ResumeCodex.ScanCodex | src/agent_resume.rs:639-679 | The index scan computes exactly the codex rewrite of the parsed command |
| ResumeCodex.CodexKeepsFlags | src/agent_resume.rs:639-679 | The output is the program, one `--no-daemon`, `resume` with the new session, and the original's kept flags in order |
| ResumeCodex.CodexComposesIff | src/agent_resume.rs:639-679 | Rewriting a rewrite is rewriting the original if and only if the session value does not look like a flag or is one the scanner drops |
| ResumeCodexGrammar.CodexRewrittenIffGrammar | src/agent_resume.rs:639-679 | A codex command is rewritten if and only if it splits, in order, into flags the rewriter owns, one `resume` with or without the old session, and allowlisted flags with their values |
| ResumeCodexGrammar.CodexRewriteIsRuntimes | src/agent_resume.rs:639-679 | The rewrite is exactly the program, `--no-daemon`, `resume` with the new session, and the allowlisted groups in order |
| ResumeCodexGrammar.CodexUnknownFlagRefuses | src/agent_resume.rs:665-667 | A flag that is on no list, or `--`, refuses the command wherever it stands |
| ResumeCodexGrammar.CodexConfigIsNeverKept | src/agent_resume.rs:526-528 | A codex command with `-c` or `--config` in any form is never rewritten |
| ResumeHistory.SanitizedMeansKeptFlags | src/agent_resume.rs:194-289 | An argv is persisted if and only if the adapter accepted the command and kept a flag of it, so comparing lengths is exact; what is persisted is the adapter's output |
| ResumeHistory.PersistWithObservation | src/agent_resume.rs:194-277 | The decision sequence that updates the observation in place computes exactly the save rule |
| ResumeHistory.SavesRemember | src/agent_resume.rs:194-277 | What the observation holds after any sequence of saves of one claude or codex session |
| ResumeHistory.HistoryDecides | src/agent_resume.rs:194-277 | Over any saves the most recent live command decides, by its sanitized flags or by having none; without any, the first recorded launch that kept a flag decides |
| ResumeHistory.PiKeepsLatest | src/agent_resume.rs:194-277 | A pi session keeps the latest contribution of any save and never a tombstone |
| ResumeHistory.KeysAreDistinct | src/agent_resume.rs:392-397 | Sessions with the same dedupe key are the same session, for NUL-free sources and agents |
| ResumeHistory.OtherSessionForgets | src/agent_resume.rs:215-230 | An observation of another session has no influence on a save |
| ResumeHistory.ManagedMeansKeptFlags | src/agent_resume.rs:279-289 | A managed launch is observed exactly when the plan kept a flag of the original command |
| ResumeHistory.ResumeOfResume | src/agent_resume.rs:567-583 | For whole commands of all three agents: while the output has at most 256 tokens, rewriting it for another session equals rewriting the original |
| ResumeHistory.ProgramIsAgent | src/agent_resume.rs:441-447 | A program is an agent's if and only if its file name is, in whatever directory |
| ResumeHistory.WrappedLauncherIsRefused | src/agent_resume.rs:567-574 | A command that starts another program is not rewritten |
| ResumeHistory.CanonicalIsBareRewrite | src/agent_resume.rs:294-320 | The canonical command is what the adapter makes of the agent's bare command |
| MetadataTokens.PatchedStep | src/metadata_tokens.rs:44-67 | Applying one more key of a patch changes that key only |
| MetadataTokens.MetadataTokenStore.Patch | src/metadata_tokens.rs:44-67 | The store after a patch, whatever order it is visited in; the answer is true exactly when a value or deadline changed |
| MetadataTokens.MetadataTokenStore.KeyCountAfterPatch | src/metadata_tokens.rs:69-82 | The count is the number of keys there would be after the patch |
| MetadataTokens.MetadataTokenStore.ExpireAt | src/metadata_tokens.rs:98-103 | What is due goes, every remaining deadline is later than now, and the answer is true exactly when something went |
| MetadataTokens.MetadataTokenStore.NextExpiry | src/metadata_tokens.rs:91-96 | The earliest deadline there is |
| MetadataTokens.ExpiryIsDue | src/metadata_tokens.rs:91-103 | Expiring changes nothing exactly before the next deadline |
| MetadataTokens.ReplayFence.AcceptSequence | src/metadata_tokens.rs:25-41 | The fence's verdict and new table; a refusal changes nothing |
| MetadataTokens.AtMost32Sources | src/metadata_tokens.rs:15-41 | Over any run the table names at most 32 sources |
| MetadataTokens.TableIsLastAccepted | src/metadata_tokens.rs:25-41 | The table's number for a source is at least every accepted one, and is an accepted report's number if and only if that report was the last accepted from its source |
| MetadataTokens.TableNamesAccepted | src/metadata_tokens.rs:25-41 | The table names only sources that a number was accepted from |
| MetadataTokens.AcceptedNumbersIncrease | src/metadata_tokens.rs:25-41 | Over any run accepted numbers of one source strictly increase |
| MetadataTokens.StaleMeansReplayed | src/metadata_tokens.rs:17-23 | A number is stale exactly when one at least as large was accepted from its source |
| MetadataTokens.VerdictIs | src/metadata_tokens.rs:15-41 | After any reports: a report without a number is accepted and changes nothing; a number is stale exactly when one at least as large was accepted from its source, and finds the table full exactly when none was and 32 sources had one accepted |
| ShellQuoting.QuoteReadsBack | src/remote.rs:33-47 | A POSIX shell reads a quoted NUL-free value as one word, the value itself |
| ShellQuoting.SshCommandReadsBack | src/remote.rs:29-47 | For every NUL-free target the shell sees exactly `ssh` and the target |
| ShellQuoting.SshCommandReadsBackIff | src/remote.rs:29-47 | The command reads back if and only if the target has no NUL |
| ShellQuoting.LeftAloneIff | src/remote.rs:33-47 | A value is left unquoted exactly when it is not empty and has only ASCII letters, digits and `@%_+=:,./-` |

## Left out

- The walk over panes that collects visible placements: the list of placements is an input; leaving out pixels of images that are there is modelled in `GraphicsElision`, `GraphicsFrames` and `GraphicsCache.Paint`.
- GraphicsDrainLoop.DrainConverges: the scene is fixed while it drains, with distinct identities and no probe collisions, and each image that is there without its pixels is anchored.
- GraphicsFrames.FrameShowsIff: the scene stays the same during the frame, with every placement's pixels to be had and no ids colliding; there is no budget, as in the local paint loop, or one that everything fits (`FittingBudget`).
- GraphicsLegacy.LegacyMapsAgainIff: is stated for scenes of distinct placements whose ids do not collide; `EventForgetsDeleted` is not.
- GraphicsLegacyScene.LegacyShowsIff: the same.
- GraphicsPixels.RunHoldsPixels: takes equal signatures to mean equal pixels, as the fingerprint in the signature is meant to ensure.
- Clipping.CellsKeepTheirPixels: leaves out the position that cannot be negated in 32 bits and requests whose sizes overflow 32 bits.
- GraphicsReplay.ReplayRepairsExactly: is about one list of placements, whose pixels are not collected anew; `GraphicsFrames.FrameRepairsExactly` is about frames that are.
- GraphicsRoundRobin.EveryLayerIsServed: is stated without a budget, since a quarantined upload is never sent.
- GraphicsRuns.RunAgrees: leaves out `trust_pane_layer` and `forget_pane_layer`, which record what the terminal received by another route; `RunKeepsIntegrity` includes them.
- Clipping.ClippedPlacement: the sum of the pane's column and the placement's is not bounded at 16 bits, and the sum of the requested start and the crop wraps at 32 bits as in a release build.
- KittyWire.AcceptedTransactionFits: saturation of the size estimate is left out because data lengths are at most the largest allocation, where it cannot happen.
- Direct-file transfer of pane layers, PNG decoding and fingerprints of pixel data: they reach files or unseen libraries.
- The host cell size probe, the process-wide lock around the cache and the writes to standard output.
- A pane-layer image id is reserved for one source for the whole run; the allocator that does so is not part of this model.
- LayoutTree.FirstExtent: 32-bit float rounding and NaN ratios in `set_ratio_at` are not modelled; ratios there are real numbers, and a non-finite ratio exists only where the source tests for one.
- Layout coordinates at the edge of 16 bits: the screen is assumed to fit in 16-bit coordinates; the ids of new panes are fresh because the allocator is global.
- LayoutState.ReachableNavigation: assumes every pane has at least one cell, since an empty pane has no edge to share.
- The PTY, process probing, signals, handoff and the event queue: a probe's answer, whether the screen is read and what it would publish are inputs of each turn.
- The idle confirmation and visible-signal bookkeeping of the detector, which decide whether an update is published but not what the exit flags do.
- Detector.AtMostSevenProbes: counts one window while the foreground group stays the probed one, since a change of group starts a new window by design (`GroupChangeAllowsSixMore`).
- Agents without an adapter in `canonical_resume_argv`, session references from reports and snapshots, and the native-source reservation: a table and one-branch checks.
- `ResumeHistory.Canonical` takes the session reference as already validated.
- Token values other than strings, and the wall clock behind the deadlines.
- The hints printed for remote authentication errors.
