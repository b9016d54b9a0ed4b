# The window's own logic, modelled and proved

This project models the stateful and algorithmic parts of the SMA window (`spa/src`) and proves
what their comments promise. `dafny verify dfyconfig.toml` checks all of it.

**The project switch and the live picture** (`Switch*.dfy`, `Window.dfy`, `Bells.dfy`). The daemon
holds the active project; the window keeps a mirror of it, one cached picture, reads that captured
the mirror when they started, select calls in flight, and bells that patch the cache. A state holds
all of them, an event is what happens between two awaits (a read starts, is served, ends, lands,
fails, is retried; a select is sent, agreed to, refused, given up on, mirrored, followed by its
ordered re-read, ended; a bell rings; something else moves the daemon), and a run is any sequence of
events. `Window.dfy` is the window's half as methods over fields, each proved equal to its event.
The facts about the mirror, about bells and about the next reading hold in every run at all. The
facts about the screen hold in disciplined runs: no switch starts while one to another project is
still to be answered, no answer is lost that mattered, and nothing but the window's selects moves
the daemon once something is chosen. `SwitchExact.dfy` proves these conditions exact, event by event:
`DisciplineIsExact` says that what follows an event stays honest if and only if the event was
disciplined. `SwitchFaults.dfy` writes out the runs in which each of them is broken.

**Promises** (`Promise*.dfy`): the reader of `acceptance` as a loop, proved equal to a reading
function; conservation, the printer/reader inverse with its exact limits, hard-wrap invariance.

**Composer drafts** (`Drafts.dfy`), **the turn stream** (`TurnStream.dfy`), **grouped hits**
(`Hits.dfy`, on heap objects shared by a map and an array), **the two confirmation protocols**
(`Activation.dfy`, `WaveOrder.dfy`), **elapsed time** (`Timers.dfy`) and **name colours**
(`Accents.dfy`).

## Where the code and its words part

- `spa/src/api/queries.ts:533` says switches come one at a time because the selector takes no second
  press. The selector watches only its own pending flag (`spa/src/shell/ProjectSelector.tsx:66`), and
  the machines screen starts switches through another hook (`spa/src/screens/machines/index.tsx:291-294`).
  `SwitchFaults.TwoDoorsCanStrandTheMirror` is the run in which the two answers cross and the window
  ends quiet and uncovered with the mirror on one project and the daemon on another;
  `SwitchExact.SecondSwitchIsSafeIffSameProject` is the guard that would be exact.
- A select the window stopped waiting for can leave the two apart as well
  (`SwitchFaults.LostAnswerStrandsTheMirror`). Before the daemon agreed, giving up is safe exactly when
  the call asks for the project the mirror is on (`SwitchExact.LossBeforeAgreementIsSafeIff`); after it
  agreed, exactly when the picture is about that project too, or a re-read is still to be ordered
  (`SwitchExact.LossAfterAgreementIsSafeIff`). When polls cover a live screen is settled exactly by
  `SwitchQuiet.PollingHidesNothing`.
- Printing a read promise and reading it again is not the identity when a line of the text carries a
  line separator inside, and numbered lists stop at ninety-nine; both limits are proved exact.
- `spa/src/shell/chat-stream.ts:53-54` says the number puts late frames in order; the fold drops them
  (`TurnStream.LateFrameIsDropped`). The stages are those of the turn as written exactly when, replays
  aside, the frames arrive in order (`TurnStream.LateFramesAreShownIffInOrder`).

## Model

| member | source | states |
|---|---|---|
| SwitchSafety.UncoveredScreenIsTheMirrored | spa/src/shell/Shell.tsx:66-75 | In every disciplined run, however the mirror was set, an uncovered screen has a picture labelled with the mirrored project, which is the daemon's, unless the last read that ended has failed |
| SwitchHandover.OnlyItsOwnReadCanFailTheSwitch | spa/src/shell/waiting-language.ts:254-263 | After a confirmed select, in every disciplined run in which no read started since has failed, an uncovered screen is labelled with the mirrored project, which is the daemon's, whatever failed before |
| SwitchHandover.NoGapBetweenSwitchAndRead | spa/src/api/queries.ts:491-500 | After any run at all, from the confirmation of a select until a read started since lands or fails, the switch is pending or a read in flight, so another project's picture stays covered, also when an earlier poll had failed |
| SwitchSafety.RunKeeps | spa/src/api/queries.ts:477-500 | The invariant behind both: every event of a disciplined run keeps mirror, daemon, answers in flight and cached label in agreement |
| SwitchSafety.OneDoorIsSafe | spa/src/shell/ProjectSelector.tsx:65-77 | A window whose switches all start at one place keeps the guarantee by that place's own guard, as long as no call is given up before the daemon agreed and other losses and moves of the daemon are harmless |
| SwitchMirror.MirrorIsNeverAhead | spa/src/api/client.ts:574-587 | In every run at all the mirror is empty or a project the daemon itself had active during the run |
| SwitchMirror.OnlyAConfirmedSelectMoves | spa/src/api/selected-project.ts:31-34 | A mirror that holds a project is moved only by a select the daemon agreed to, and to its target |
| SwitchMirror.LateAnswersNeverMoveTheChoice | spa/src/api/queries.ts:130-138 | Without a confirmed select no interleaving of late, cancelled or retried reads moves the choice |
| SwitchMirror.CacheIsReadingPlusBells | spa/src/api/hints.ts:150-159 | The cache is the last landed reading with exactly the bells since that landing folded in |
| SwitchMirror.BellsAreOnlyAPatch | spa/src/api/hints.ts:8-26 | Over any run the cached rows, order and identifiers are the reading's; a task shows the last word rung about it since, or the reading's own |
| SwitchQuiet.FreshReadingSettlesTheScreen | spa/src/api/queries.ts:491-500 | From the moment a select is confirmed, the first read started since that lands makes question, label and mirror one project, and from then on the screen is covered only while a switch is pending, for as long as no switch to another project starts |
| SwitchQuiet.OrderedReadIsFresh | spa/src/api/queries.ts:495-499 | The re-read a confirmed switch orders is such a read, and it asks about the mirrored project |
| SwitchQuiet.LaterReadingSettlesTheScreen | spa/src/shell/waiting-language.ts:254-263 | The same from any moment of a disciplined run at which every call still to be answered is for the mirrored project |
| SwitchQuiet.NextReadingIsTheTruth | spa/src/api/hints.ts:8-24 | After any run at all, once channel and daemon are quiet, the first fresh reading makes the cached picture equal to what the daemon tells, for good |
| SwitchQuiet.PollingHidesNothing | spa/src/shell/waiting-language.ts:254-263 | From a quiet window no sequence of polls and bells ever covers the screen exactly when label, mirror and daemon are one project |
| SwitchExact.DisciplineIsExact | spa/src/api/queries.ts:477-500 | From any state of the invariant, whatever event comes next: every disciplined run after it ends with an honest screen if and only if the event was disciplined |
| SwitchExact.SecondSwitchIsSafeIffSameProject | spa/src/api/queries.ts:533-535 | Beside a switch still to be answered, a press in the selector keeps every later disciplined run honest exactly when it names the same project |
| SwitchExact.LossBeforeAgreementIsSafeIff | spa/src/api/client.ts:135-147 | Giving up on a call the daemon has not agreed to is safe exactly when the call asks for nothing or for the mirrored project |
| SwitchExact.LossAfterAgreementIsSafeIff | spa/src/api/client.ts:135-147 | Giving up on a call the daemon agreed to is safe exactly when the mirror is on its project and the picture is current, or a confirmed switch still has its re-read to order |
| SwitchExact.MoveIsSafeIffItStays | spa/src/api/selected-project.ts:25-34 | Once something is chosen, another mover of the daemon is harmless exactly when the daemon stays where it is |
| SwitchFaults.OtherWindowStrandsTheMirror | spa/src/api/selected-project.ts:25-34 | Another window moves the daemon, and the next poll shows its project uncovered under the old mirror |
| SwitchFaults.TwoDoorsCanStrandTheMirror | spa/src/screens/machines/index.tsx:291-294 | From any settled screen two switches started at the two places and answered crosswise leave mirror and daemon apart under an uncovered screen |
| SwitchFaults.LostAnswerStrandsTheMirror | spa/src/api/client.ts:135-147 | A switch agreed to but given up on ends with the screen uncovered about a project the mirror does not name, and the next poll covers it |
| SwitchFaults.FailedReReadShowsTheOldPicture | spa/src/shell/waiting-language.ts:259-263 | The exception is real: if the ordered re-read fails the old picture is shown uncovered |
| Switch.SelectorIsBusyOnlyWhileItWaits | spa/src/shell/ProjectSelector.tsx:65-77 | A press is sent unless a call of the selector still waits for its answer; a call given up does not keep it busy |
| Switch.MachinesScreenTakesAPressIffShown | spa/src/screens/machines/index.tsx:291-294 | The machines screen can be pressed exactly while it is not covered, whatever the selector has pending |
| Switch.CoveredIff | spa/src/shell/waiting-language.ts:254-263 | The screen is covered exactly while a call is waited for, no picture has arrived, or a read is under way and the picture is not about the mirrored project |
| Switch.HowReadsStart | spa/src/api/queries.ts:134-149 | A poll joins the read under way, an ordered refresh replaces it unless nothing has arrived yet, a retry asks anew, and each captures the mirror as it starts |
| Window.SelectedProject.SetSelectedProject | spa/src/api/selected-project.ts:32-34 | Overwrites the mirror |
| Window.ProjectWindow.constructor | spa/src/api/selected-project.ts:25 | A window opens with an empty mirror, no picture and nothing in flight |
| Window.ProjectWindow.StartStateQuery | spa/src/api/queries.ts:134-136 | A read captures the mirror once, when it starts |
| Window.ProjectWindow.ResumeStateQuery | spa/src/api/queries.ts:137-139 | The answer seeds the mirror only if it is still empty; a cancelled reader's body still ends but its answer goes nowhere |
| Window.ProjectWindow.PollTick | spa/src/api/queries.ts:142-149 | A poll starts a read only if none is under way |
| Window.ProjectWindow.Land | spa/src/api/queries.ts:142-149 | Only the read under way lands in the cache |
| Window.ProjectWindow.InvalidateState | spa/src/api/queries.ts:292-298 | An ordered refresh replaces the read under way, or joins it while nothing has landed yet |
| Window.ProjectWindow.PickInSelector | spa/src/shell/ProjectSelector.tsx:65-77 | A press while the selector's own switch is pending changes nothing; otherwise one call is sent |
| Window.ProjectWindow.ResumeSelect | spa/src/api/client.ts:582-587 | The mirror moves when the accepted answer arrives, to the project asked for |
| Window.ProjectWindow.ResumeSelectAndRefresh | spa/src/api/queries.ts:495-499 | The re-read is ordered after the mirror has moved |
| Window.ProjectWindow.OnFrame | spa/src/api/hints.ts:150-159 | A bell patches the cached picture and an empty cache stays empty |
| Window.ProjectWindow.Covers | spa/src/shell/Shell.tsx:66-75 | The decision fed with the pending switches, the label, the mirror and the read under way |
| Bells.OneBell | spa/src/api/hints.ts:52-81 | One bell moves at most the status of the first row, or the presence of the first machine, that carries its identifier |
| Bells.WhatABellSays | spa/src/api/hints.ts:37-81 | Which bells say a status and which a presence, by their names and fields |
| Bells.BellsPatchOnly | spa/src/api/hints.ts:52-81 | The closed form of any sequence of bells over a picture |
| PromiseReader.AcceptanceList | spa/src/shell/format.ts:106-136 | The line loop returns what the reading function says; the fallback to the whole text never decides |
| PromiseReader.AcceptedMarkers | spa/src/shell/format.ts:84 | The accepted markers written out: "-", "–", "—", "*", "•", or one or two digits closed by "." or ")" |
| PromiseReader.UnmarkedLine | spa/src/shell/format.ts:121-133 | An unmarked line goes on with the open item after a blank, or opens one of its own |
| PromiseReader.MarkedLinesYieldItems | spa/src/shell/format.ts:135 | A marked text always yields an item: the last fallback is dead |
| PromiseReader.ItemsAreClean | spa/src/shell/format.ts:106-119 | Every item is trimmed and not empty, and reading the result as a list changes nothing |
| PromiseConservation.NothingLostOrInvented | spa/src/shell/format.ts:106-136 | The visible characters of the text are, line by line, marker and words; those of the items, in order, are the same without the markers |
| PromiseConservation.MarkerAndBody | spa/src/shell/format.ts:84 | A marked line is exactly blanks, one accepted marker of at most three characters, blanks and the captured words |
| PromiseRoundTrip.LaidOutLineIsMarked | spa/src/shell/format.ts:84 | A line of blanks, marker, blanks and a word-initial item is matched, and captures the item, exactly when the item has no line end |
| PromiseRoundTrip.PrintedListReadsBack | spa/src/shell/format.ts:106-136 | Items printed one to a line with any accepted marker, blanks and line ending read back as themselves |
| PromiseLimits.NumberedListReadsBack | spa/src/shell/format.ts:84 | A list numbered from one reads back exactly when it has at most ninety-nine items |
| PromiseLimits.DashedListReadsBack | spa/src/shell/format.ts:106-136 | Trimmed items behind dashes read back exactly when none has a line end inside |
| PromiseLimits.ParsePrintParse | spa/src/shell/format.ts:106-136 | For every text that is not blank, read, print and read again is the first reading exactly when no line of the text, its edges trimmed, holds another line end |
| PromiseLimits.LineSeparatorBreaksTheTrip | spa/src/shell/format.ts:84 | The text that breaks it |
| PromiseWrap.HardWrapInvariance | spa/src/shell/format.ts:113-135 | Breaking a marked item at any number of spaces onto lines neither blank nor marked leaves the list unchanged, with either line ending, blanks where the item ends and blanks around the text |
| PromiseWrap.WrappingChangesNoItem | spa/src/shell/format.ts:121-133 | The same line by line, whatever item is open in front |
| Drafts.TextStaysUnderItsOwnKey | spa/src/shell/useComposerDraft.ts:52-55 | In every run, stale callbacks and refusing storage included, a key holds only what was there or a non-empty text set for that surface |
| Drafts.OtherKeysAreUntouched | spa/src/shell/useComposerDraft.ts:58-76 | Keys without the prefix are never changed |
| Drafts.HookRefinesPlainMap | spa/src/shell/useComposerDraft.ts:78-102 | Over a working storage the hook is a plain map from surfaces to texts, through screens left and pages reloaded once the effect has run |
| Drafts.CommittedDraftSurvives | spa/src/shell/useComposerDraft.ts:16-21 | A committed text is shown at the next render of its surface, on screen or the first one after it was left, whatever happened to other surfaces |
| Drafts.CommittedDraftSurvivesReload | spa/src/shell/useComposerDraft.ts:16-21 | And after a reload of the page at any moment once the effect has run |
| Drafts.TextIsKeptIffItsSurfaceIsRendered | spa/src/shell/useComposerDraft.ts:89-101 | A text set before a render is kept exactly when its surface is the one rendered, or it was there already |
| Drafts.TypingNeedsNoStorage | spa/src/shell/useComposerDraft.ts:30-33 | A refusing storage costs survival only: typing on one surface shows what was typed |
| Drafts.RefusedAccessChangesNothing | spa/src/shell/useComposerDraft.ts:61-76 | A refused write leaves the whole storage as it was, and what cannot be read is no text |
| Drafts.EffectWritesThePair | spa/src/shell/useComposerDraft.ts:69-76 | The effect stores the text under its own key, and an empty text erases the key |
| Drafts.EffectRunsOncePerChange | spa/src/shell/useComposerDraft.ts:95-97 | There is something to write exactly after a change of the pair, and once |
| Drafts.RenderMeans | spa/src/shell/useComposerDraft.ts:84-102 | A render leaves the pair of its own surface: the last text set for it, or the stored one |
| Drafts.Composer.WriteDraft | spa/src/shell/useComposerDraft.ts:69-76 | An empty text erases its key, another is stored under it, a refused access changes nothing |
| Drafts.Composer.RunEffect | spa/src/shell/useComposerDraft.ts:95-97 | The effect writes the pair once for each change of it |
| Drafts.Composer.SetTextFor | spa/src/shell/useComposerDraft.ts:99 | The callback sets text and its own surface as one pair |
| Drafts.Composer.MountOn | spa/src/shell/useComposerDraft.ts:87 | The initial state is read from the storage |
| Drafts.Composer.UseComposerDraft | spa/src/shell/useComposerDraft.ts:84-102 | One render: the last queued pair, or the stored text if the surface is another |
| TurnStream.StagesAreTheRecords | spa/src/shell/chat-stream.ts:58-67 | For any delivery the stages are the words of the strict left-to-right maxima among this turn's known frames, and the number is the largest |
| TurnStream.FrameIsTakenIff | spa/src/shell/chat-stream.ts:58-67 | One frame adds its words exactly when it is a stage of this turn, one of the four, numbered above the last; otherwise nothing changes |
| TurnStream.ShownInWrittenOrder | spa/src/shell/chat-stream.ts:41-42 | The stages shown are words of written frames at strictly increasing places |
| TurnStream.LateFramesAreShownIffInOrder | spa/src/shell/chat-stream.ts:50-67 | A delivery of a written turn shows its stages as written if and only if, replays aside, the frames arrive in the order of their numbers |
| TurnStream.NothingIsLostIffInOrder | spa/src/shell/chat-stream.ts:50-67 | For any delivery at all, every number delivered is shown if and only if, replays aside, the frames arrive in order |
| TurnStream.LateFrameIsDropped | spa/src/shell/chat-stream.ts:53-67 | The delivery that shows it: the second stage first, and the first is never shown |
| TurnStream.ReplaysAreAbsorbed | spa/src/shell/chat-stream.ts:50-57 | Removing any number of replayed, foreign or unknown frames changes nothing |
| Hits.GroupHits | spa/src/shell/search-hits.tsx:132-145 | The groups, fresh and distinct objects, are the kinds by first appearance, each with its hits in order |
| Hits.GroupFor | spa/src/shell/search-hits.tsx:136-141 | Looking a kind up returns its group, or adds one object to the map and the array |
| Hits.GroupingIsAStablePartition | spa/src/shell/search-hits.tsx:123-131 | Laid end to end the groups are a permutation that starts with the best hit, and grouping again gives the same groups |
| Hits.KindsAreDistinct | spa/src/shell/search-hits.tsx:134-141 | Every kind that occurs has exactly one group |
| Hits.TitlesOfKinds | spa/src/shell/search-hits.tsx:41-48 | The six titles, and a kind that is not known is its own |
| Activation.EnablingFollowsAConfirmedMerge | spa/src/screens/agents/DraftCard.tsx:7-23 | In every run an enable request follows a merged approval, no approval follows that, one request is out at a time, and the card says enabled exactly when the last thing was a granted enable |
| Activation.CardIsFaithful | spa/src/screens/agents/DraftCard.tsx:82-142 | The wire carries only allowed conversations and the card's flags are what the wire says |
| Activation.EveryAllowedConversationHappens | spa/src/screens/agents/DraftCard.tsx:111-140 | Conversely each allowed conversation is the wire of some run |
| Activation.ProblemsAreTheDaemonsLastWord | spa/src/screens/agents/DraftCard.tsx:83-138 | For every run, the problem shown for each step is the one its last answer leaves, none while its request is out, and the missing file is told exactly when the approval merged and there is no identifier |
| Activation.PressMeans | spa/src/screens/agents/DraftCard.tsx:169-182 | What a press does in any state of the card: which request it sends and which problems it takes down |
| Activation.DraftCard.PressButton | spa/src/screens/agents/DraftCard.tsx:169-182 | Which step a press starts, and when it starts none |
| Activation.DraftCard.ActivateStep | spa/src/screens/agents/DraftCard.tsx:112-117 | Sends the approval and clears both problems |
| Activation.DraftCard.RunToggleStep | spa/src/screens/agents/DraftCard.tsx:83-93 | Sends the enable request, or says the draft has no file |
| Activation.DraftCard.OnApproveSuccess | spa/src/screens/agents/DraftCard.tsx:118-129 | Only an accepted and merged approval starts the second step; another leaves the problem its checks give |
| Activation.DraftCard.OnToggleSuccess | spa/src/screens/agents/DraftCard.tsx:94-100 | A worker that stayed off is a problem, not an enabled card |
| WaveOrder.EveryCallAnswersOneAsk | spa/src/shell/SystemConsole.tsx:490-538 | Each call is backed by exactly one earlier ask for the same order with nothing in between, an ask backs at most one call, a call after a cancel or an earlier call needs an ask made since, and a call is settled before anything else |
| WaveOrder.ConsoleIsFaithful | spa/src/shell/SystemConsole.tsx:494-538 | The order waiting and the call in flight are what the history says, and the history is an allowed one |
| WaveOrder.EveryAllowedHistoryHappens | spa/src/shell/SystemConsole.tsx:494-538 | Conversely each allowed history is the log of some run |
| WaveOrder.WaveConsole.AskWave | spa/src/shell/SystemConsole.tsx:494-511 | First press: refused without a phase or during a call, otherwise it only waits |
| WaveOrder.WaveConsole.ConfirmWave | spa/src/shell/SystemConsole.tsx:514-519 | Second press: calls with the waiting order |
| WaveOrder.WaveConsole.CancelWave | spa/src/shell/SystemConsole.tsx:763-777 | Takes the waiting order down without a call |
| WaveOrder.WaveConsole.OnAnswer | spa/src/shell/SystemConsole.tsx:520-535 | Success and refusal both take the order down |
| Timers.WordsNameTheSeconds | spa/src/shell/live-timer.ts:86-98 | For every number a reader recovers the exact whole seconds, as a clock says them: hours from an hour on, minutes from a minute on, in this order, minutes and seconds below sixty |
| Timers.WordsAreSpelled | spa/src/shell/live-timer.ts:92-98 | The very words, below a minute, below an hour and from an hour on |
| Timers.PrintersAgree | spa/src/shell/stats.ts:100-116 | For every interval that is not negative the label says exactly the hours and minutes that the chip's words say, zeros and seconds left out |
| Timers.LabelIsSpelled | spa/src/shell/stats.ts:111-115 | The very label, minutes left out exactly when there are none beside the hours |
| Timers.MomentIsKnown | spa/src/shell/live-timer.ts:79-84 | Which moments count as known |
| Timers.ChipIsHonest | spa/src/shell/live-timer.ts:100-126 | The chip is there for a known moment of unfinished work, spins only for running work, holds and says the whole seconds since, none for a moment to come, and never counts down |
| Timers.WaitIsNamed | spa/src/shell/waiting-language.ts:212-225 | The words of a wait are shown exactly from the threshold on, stay, and name its whole seconds |
| Accents.UnitsGiveTheCharacter | spa/src/shell/format.ts:255 | The code units of a character, and the pair from which one above 0xFFFF is read back |
| Accents.Roll | spa/src/shell/format.ts:254-255 | The rolling loop computes the base-31 polynomial modulo 9973 and stays within safe integers |
| Accents.HashOfSum | spa/src/screens/accounts/AccountRow.tsx:43-46 | The concatenation law of the hash |
| Accents.AccentFor | spa/src/shell/format.ts:252-257 | The accent of a name, always from the palette |
| Accents.SquareFor | spa/src/screens/accounts/AccountRow.tsx:43-47 | The square of a name, always from the palette |
| Accents.ColourOfThePolynomial | spa/src/shell/format.ts:245-257 | Both colours are the palette entry at the polynomial's remainder by 9973 and then by four |
| Accents.CopiesAgreeOnTrimmedNames | spa/src/screens/accounts/AccountRow.tsx:40-47 | Both copies give a trimmed name one colour |
| Accents.CopiesDifferOnBlanks | spa/src/screens/accounts/AccountRow.tsx:43-47 | They part on a name with a blank in front |

## Left out

- The query library (TanStack Query 5.101.4) is not modelled itself: assumed are that an ordered refresh silently cancels a read under way once something has landed and joins it before that, that a poll joins it always, that a retry calls the read function again, and that a cancelled call's body still runs to its end. Its pause while the browser is offline is not modelled.
- The daemon: an answer carries the active project of the moment it was served; an empty identifier is never accepted (`daemon/src/front/server.mjs:3308`). Registering the very first project also changes what it answers (`daemon/src/front/state.mjs:3077`); that is the event `DaemonMoves`, which disciplined runs hold only while nothing is chosen.
- The narrow shell (`spa/src/shell/Shell.tsx`), which never covers the screen.
- The moment between a press and the render that shows it pending: the handlers read the flag of the last render, the model the flag of the state, so two presses within one render are not followed.
- When the shell renders: the decision is read at every instant, while the shell reads the mirror when it renders and the mirror by itself renders nothing, as when a cancelled reader seeds it.
- A reload between a render and its effect loses what that render committed; the surviving runs reload after it.
- Rounding: intervals and their divisions are exact reals where the code computes in doubles.
- Which rows a narrowed question returns: a served picture is arbitrary, so screen safety speaks of labels.
- The rest of the picture (numbers, spending, accounts, rules) and the conversation's own reads.
- `tellListeners` and the order in which watchers of bells are told; frames whose text does not parse, which are dropped before the model.
- Several composers mounted on one surface at once, and renders React starts and abandons: one mounted hook is followed, its effect written before its next render.
- Names a JavaScript object inherits (such as `constructor`) looked up in the stage words and kind labels.
- NaN and infinite numbers outside the moments and clocks that test for them; numbers too long to print in decimals.
- Unpaired surrogates in names; characters are Unicode scalars and their code units are computed.
- `idFromDraftPath`: the worker's identifier is a parameter, absent when the path yields none.
- `waitingLabel`, the words of the two confirmations, labels and badges: fixed texts.
- The daemon's own copy of the promise reader, rendering, network calls, and the one-door functions of `client.ts`.
