# Delight: session control, transcripts, actor, log and token refresh

Delight runs a coding agent in a terminal and lets a phone watch and control it. This project models
the parts of it whose correctness spans many steps, and proves what every run of them keeps.

- **Session control** (`SessionFsm`, `SessionView`, `SessionSteps`, `SessionRuns`, `SessionList`,
  `SessionPhone`, `SessionCalls`, `SessionClient`). The Go SDK caches one snapshot per session. List refreshes, activity
  ephemerals, agent-state updates and the three outcomes of a control switch rewrite it, under a 2 s
  working hold and a 15 s switching limit, and publish a UI record that the phone reads again.
  `SessionSteps` gives each of the six as a function of one session's entry, lifts them to the whole
  cache, and proves that a run of the cache is, session by session, a run of that session's own
  history. `SessionRuns` holds the laws of all timed runs. `SessionList` is the app's own list, which keeps
  the UI records that reach it, and `SessionPhone` compares what it shows with what is cached.
  `SessionCalls` fixes what a switch call and a look-up do. `SessionClient` is the imperative client,
  proved to take exactly those steps.
- **Transcripts** (`Messages`, `Squash`, `Merge`, `TranscriptRuns`, `FetchProtocol`). The phone's list of rows
  is fed by optimistic sends, live echoes, UI events and fetched pages; a merge sorts and folds
  duplicates, and a generation counter keeps stale pages out.
- **Actor** (`ActorLoop`). A reducer goroutine and a runtime goroutine joined by two bounded channels,
  with outside callers and goroutines that handlers start, as a transition system under every
  interleaving, refined to a sequential fold.
- **Log files** (`LogRotation`). Rotation through numbered files, the tail of recent lines, and the
  snapshot, against all bytes ever written.
- **Fetch tracker** (`FetchTracker`). Open fetches and debounce timers decide whether a process is working.
- **Token refresh** (`RequestAuth`). Mutually recursive request and authentication, with its exchanges.
- **Prompt history** (`PromptHistory`). A per-session history browsed with a cursor.

## How the source is read

- Objects whose methods update fields are classes; each method is proved equal to a step function on
  its old state, and the laws are proved of runs of those steps. Ghost histories (published records,
  accepted inputs, bytes written) exist only to state the laws.
- The SDK dispatch queue serialises SDK calls and the main queue serialises the phone's, so a step is
  atomic. A step that reads the clock twice carries both readings. Runs are timed: the clock is
  positive and does not go back.
- The Go strings for state, mode and transition are datatypes. A session's `uiJSON` is the UI record it
  encodes, and its `agentState` JSON is the `controlledByUser` flag it decodes to, if it decodes.
  A message's blocks are the signature by which all decisions below compare them.
- A session's published view is the latest UI record injected into a list reply or sent in a session-ui
  update. What the app has is kept apart from it: a refresh that the SDK runs for itself drops its
  reply (cli/sdk/session_fsm_cache.go:8, cli/sdk/sdk.go:356, cli/sdk/sdk.go:1239), a delivered list
  replaces the app's list, updates for sessions not on it are thrown away, and the app patches its
  records by activity ephemerals itself (ios/DelightApp/SDKBridge.swift:3126, 3275, 4396).
- Channels, files, servers and clocks are parameters or explicit state: a page's rows, an RPC
  acknowledgement, an HTTP reply and the token check all arrive as inputs.

## Where the code differs from its comments or from the obvious law

Each of these comes with a run that shows it and with the exact condition.

- A comment says failures clear the switching flag so that the UI is never stuck
  (cli/sdk/sdk.go:509). A refused take-control request and a failed refresh return with the mark set
  (cli/sdk/sdk.go:489-499), and an ack without a mode keeps it too (cli/sdk/sdk.go:544-548):
  `SessionCalls.RefusalLeavesMark`, `SessionCalls.MarkOutlivesCallExactly`. By
  `SessionRuns.SwitchingShownExactly` the 15 s limit then ends what is shown.
- The app need not show the cached record, nor need its composer agree with the send gate. Internal
  refreshes rewrite that record unsent: `SessionPhone.DroppedReplyMisleadsApp`. An ephemeral makes the
  app show an idle session within the 2 s for which the SDK holds it to be working
  (cli/sdk/session_fsm.go:98-105, ios/DelightApp/BridgeModels.swift:378-393):
  `SessionPhone.HoldMisleadsApp`. A session that the app does not list gets no updates, and a detail
  view open on it keeps its old record: `SessionPhone.OmissionMisleadsView`,
  `SessionPhone.UnlistedReportIsLost`. The exact conditions are `SessionPhone.AppListsExactly`,
  `SessionPhone.AppIsCurrentExactly`, `SessionPhone.AppMatchesGatesExactly` and
  `SessionPhone.UnlistedViewMatchesExactly`.
- A comment says that the send gate always consults a recent snapshot (cli/sdk/sdk.go:600-602). A
  session that the refreshed list no longer holds keeps its old one:
  `SessionCalls.UnlistedSessionStaysOpen`, `SessionCalls.SnapshotIsRecentExactly`.
- Rows are sorted by sequence number first, so times in a sorted list can step back, and a pair of
  duplicates can then survive a squash and a merge: `Squash.SortedAloneIsNotEnough`,
  `Merge.MergeMayLeaveDuplicates`, `Squash.SquashesOnceExactly`.
- The effects queue is sized so that the reducer stalls only if the runtime is wedged
  (cli/internal/actor/actor.go:108-110). Reducer and runtime can also wait for each other until `Stop`:
  `ActorLoop.WedgeIsReachableExactly` says for which reducers, and `ActorLoop.StandsStillExactly` that
  nothing else stops them.
- A request in flight does not imply that its spinner is on. A failed history fetch clears the spinner
  without checking session or generation (ios/DelightApp/SDKBridge.swift:2036-2038, 2052-2054), and the
  answer to one of two current fetches clears it for both: `FetchProtocol.StaleFailureHidesFetch`,
  `FetchProtocol.AnsweredResetHidesFetch`, `FetchProtocol.StepHidesExactly`.
- A comment says that the 30 s interval bounds how often a refresh is attempted (cli/sdk/sdk.go:49-51).
  It counts from completed refreshes only: `RequestAuth.FailedRefreshesAreNotSpaced`,
  `RequestAuth.UnforcedRefreshesAreSpaced`, and the condition for an attempt in
  `RequestAuth.Client.RefreshTokenIfNeeded`.
- A full working channel drops changes (cli/internal/claude/process.go:468-472):
  `FetchTracker.ListenerMayMissAChange`, `FetchTracker.ListenerHearsAllExactly`.

## Model

| member | source | states |
|---|---|---|
| SessionView.DerivedViewAgrees | ios/DelightApp/BridgeModels.swift:296-318 | For every derived pair: unless switching, the phone's state is the SDK's; input is enabled exactly when the send gate would accept the snapshot and no switch is shown; Stop shows exactly for a remote working session; take-control is offered exactly for a local one, and then the gate accepts it |
| SessionView.NoRecordEnablesNothing | ios/DelightApp/TerminalUI.swift:379-391 | Without a record the composer enables no input, offers no control and shows no Stop |
| SessionSteps.RefreshActsLocally | cli/sdk/sdk.go:668-733 | A list refresh, which derives every row from the cache as it was at the start, changes a session exactly as its last row in the list does alone, and leaves unlisted sessions untouched |
| SessionSteps.StepActsLocally | cli/sdk/sdk.go:1093-1124 | Any event changes a given session by at most one step of its own |
| SessionSteps.RunIsLocal | cli/sdk/sdk.go:651-741 | After any run of the cache, a session's entry and published record are those of its own history alone |
| SessionRuns.ListedKeepsGood | cli/sdk/sdk.go:716-732 | A list refresh keeps an entry blank or coherent, its flags set or cleared together, and its UI record the published one |
| SessionRuns.ActivityKeepsGood | cli/sdk/sdk.go:1093-1124 | The same for an activity ephemeral, which derives from the old flags and stores cleared ones |
| SessionRuns.AgentStateKeepsGood | cli/sdk/sdk.go:1186-1221 | The same for an agent-state update |
| SessionRuns.MarkKeepsGood | cli/sdk/sdk.go:459-485 | The same for a switch mark, whether or not its UI record is new |
| SessionRuns.SuccessKeepsGood | cli/sdk/sdk.go:542-575 | The same for a switch that succeeded, though its stored snapshot is not the derived one |
| SessionRuns.FailureKeepsGood | cli/sdk/session_ui_updates.go:42-60 | The same for a switch that failed, including the blank entry it inserts for an unknown session |
| SessionRuns.EveryStateGood | cli/sdk/session_fsm.go:57-153 | In every timed history the entry is blank or coherent with its own fields, switching, transition and switchingAt go together, the cached UI record is the published view, and the phone's reading agrees with the entry |
| SessionRuns.ReachableCacheGood | cli/sdk/session_fsm.go:57-153 | The same for all sessions of every reachable cache; entries and published records match one to one |
| SessionRuns.EmitsExactlyOnChange | cli/sdk/sdk.go:1117-1124 | Along every timed history, ephemeral and agent-state steps emit exactly when the derived record differs from the cached one, a mark exactly when it also finds its session; lists and switch outcomes always publish |
| SessionRuns.ControlAfter | cli/sdk/session_fsm.go:85-88 | A step changes who controls a session only by saying so, or by making the session known |
| SessionRuns.ControlFollowsLatestReport | cli/sdk/session_fsm.go:85-88 | Along every history, who controls a session is what the latest listed agent state, agent-state update or acknowledged switch said, whatever came after |
| SessionRuns.ControlBeforeAnyReport | cli/sdk/session_fsm.go:43-55 | Before any such report the desktop is taken to be in control if a list made the session known, and the phone if any other step did |
| SessionRuns.PresenceAfter | cli/sdk/sdk.go:1100-1108 | Lists and ephemerals replace connected and online; agent updates and switches take a session without a state to be connected and online; marks and failures change neither |
| SessionRuns.StateIsNeverLost | cli/sdk/sdk.go:1104-1108 | Only marks and failures leave a session without a state, and only one that had none |
| SessionRuns.OnlineFollowsLatestReport | cli/sdk/sdk.go:1198-1204 | Along every history a session is online when the latest list or ephemeral said so, whatever other steps came after |
| SessionRuns.ConnectedFollowsLatestReading | cli/sdk/sdk.go:1194-1204 | It is connected when the latest socket reading said so, whatever came after, except that an agent update on a session without a state takes it to be connected |
| SessionRuns.LastMark | cli/sdk/sdk.go:459-468 | The named step marked a session that it found, and no later one did; with none named, no step did |
| SessionRuns.MarkAfter | cli/sdk/session_fsm.go:111-116 | A mark is made only by a switch that finds its session, to local for the desktop and to remote for the phone, is kept by list refreshes, and ends with any other step |
| SessionRuns.FlagsTrackLastMark | cli/sdk/session_fsm.go:111-116 | Along every timed history the cached flags are the time and target of the last mark exactly when only list refreshes have followed it, and clear otherwise |
| SessionRuns.SwitchingShownExactly | cli/sdk/session_fsm.go:121-142 | A computed record reports switching if and only if a mark stands and is at most 15 s old and the step is not the outcome of a switch; it then says to local exactly if that mark asked for the desktop, to remote exactly if for the phone, and keeps the last stable mode |
| SessionRuns.WorkingAfter | cli/sdk/session_fsm.go:90-105 | All any step does to working and its start time: true reports start a spell, false ones end it unless it is young, success forgets when it began, others keep both |
| SessionRuns.SpellBeginsWithReport | cli/sdk/session_fsm.go:94-97 | Every working spell began with a true report, and its start time stays that of the first one until a switch succeeds |
| SessionRuns.HoldExactly | cli/sdk/session_fsm.go:98-105 | A false report leaves the session working if and only if the spell's first report is at most 2 s old and no switch has succeeded since; nothing else ends a spell, and later reports never extend it |
| SessionRuns.FetchedAfter | cli/sdk/session_fsm.go:107-108 | What every step does to the time of the snapshot and of the row: failures, and marks with nothing new, keep both; a success counts from its start |
| SessionRuns.RenewsOrKeeps | cli/sdk/session_fsm.go:107-108 | Along a history a step that renews the snapshot dates it, and any other keeps its date |
| SessionRuns.FetchedSince | cli/sdk/session_fsm.go:107-108 | The snapshot is dated by the last step that renewed it |
| SessionRuns.RecentExactly | cli/sdk/session_fsm.go:107-108 | A snapshot is recent if and only if the last list, ephemeral, agent update, acknowledged switch or new mark record is at most 2 s old |
| SessionRuns.UpdatedAsListed | cli/sdk/sdk.go:721-722 | A session's update time is that of its row in the latest list that had it, whatever came after |
| SessionRuns.RunsHaveTimedHistories | cli/sdk/sdk.go:650-741 | Every session of every timed run has a timed history that ends in its cached state, so all laws above hold of runs |
| SessionRuns.ShareIsTimed | cli/sdk/sdk.go:1093-1124 | An event gives a session at most one step, which reads the clock within the event |
| SessionList.Sessions.ParseSessions | ios/DelightApp/SDKBridge.swift:4333-4396 | A delivered list replaces the app's: just the listed sessions are held, each with the last record that the reply has for it |
| SessionList.Sessions.HandleSessionUIUpdate | ios/DelightApp/SDKBridge.swift:3125-3141 | An update replaces the record of the first row with its id, and changes nothing if there is none |
| SessionList.Sessions.HandleActivityUpdate | ios/DelightApp/SDKBridge.swift:3274-3282 | An ephemeral patches the record of the first row with its id by the app's own reading, and changes nothing if there is none |
| SessionList.Sessions.RemoveSessions | ios/DelightApp/SDKBridge.swift:1887 | Deleting a terminal removes its sessions and keeps the others in order; clearing removes all |
| SessionList.ParsedHolds | ios/DelightApp/SDKBridge.swift:4333-4396 | What a delivered list leaves of any one session: the record of its last row, or nothing |
| SessionList.WithUIHolds | ios/DelightApp/SDKBridge.swift:3125-3141 | An update changes the record of its own session, and only if the app lists it |
| SessionList.WithActivityHolds | ios/DelightApp/BridgeModels.swift:378-393 | An ephemeral patches the record of its own session, and only if the app lists it |
| SessionList.WithoutHolds | ios/DelightApp/SDKBridge.swift:1887 | A removal forgets the removed sessions and no other |
| SessionList.OrderIsKept | ios/DelightApp/SDKBridge.swift:4359-4396 | The app lists sessions in the order of the reply; updates and ephemerals keep the order and every other row |
| SessionList.RemovalFilters | ios/DelightApp/SDKBridge.swift:1887 | A removal leaves out just the removed sessions, the others in order |
| SessionList.AppActsLocally | ios/DelightApp/SDKBridge.swift:2967-2990 | Any event changes the app's record of a session by at most that session's share of it |
| SessionList.AppRunIsLocal | ios/DelightApp/SDKBridge.swift:2967-2990 | After any run the app's record of a session is the one that the session's own history gives it |
| SessionPhone.TraceIsPlausible | cli/sdk/sdk.go:1110-1124 | In every timed history a record that is not sent is the published one, an ephemeral's record carries its flags, and a dropped refresh shows only a switch that was shown |
| SessionPhone.AppListsExactly | ios/DelightApp/SDKBridge.swift:4396 | The app has a record of a session if and only if a delivered list held it and neither a later one nor the app has dropped it since |
| SessionPhone.LastDelivery | ios/DelightApp/SDKBridge.swift:3125-3141 | The named step gave the app a whole record, and since then none did and nothing removed the session |
| SessionPhone.PublishedSince | cli/sdk/session_fsm_cache.go:7-10 | While the app lists a session, the cached record is that of the last dropped refresh since the last delivery, or else the delivered one |
| SessionPhone.AppKeepsInStep | ios/DelightApp/BridgeModels.swift:378-393 | With nothing dropped since the last delivery, the app's record is the cached one with working as the last ephemeral has it |
| SessionPhone.AppIsCurrentExactly | cli/sdk/session_fsm_cache.go:7-10 | A listed session is shown as it is cached if and only if the last dropped refresh since the last delivery found, by its own row, socket state, hold, mark and control, just what is shown; or, with none dropped, the working hold does not overrule the last ephemeral |
| SessionPhone.ReportIsShownExactly | cli/sdk/sdk.go:1049-1050 | After an agent update the app shows its record if and only if it lists the session and was sent the record or had it; after an ephemeral it need only have had what that does not carry, unless the hold overrules it |
| SessionPhone.SwitchingReachesApp | cli/sdk/sdk.go:473-484 | A switch that the cached record shows, the app shows too if it lists the session, dropped refreshes or not |
| SessionPhone.ListedEnablesExactly | cli/sdk/sdk.go:716-725 | The record of a list refresh enables input if and only if the socket is connected, the row active, no turn in flight or held, no mark shown and the phone in control |
| SessionPhone.AgreesWithPublished | ios/DelightApp/TerminalUI.swift:379-391 | The conditions of the next row say exactly when the app's record enables input, or offers control, as the cached one does |
| SessionPhone.AppMatchesGatesExactly | cli/sdk/sdk.go:603-615 | For a session that the app lists, the composer enables input exactly as the send gate would, and control is offered exactly for a local session, if and only if a switch is shown, the last dropped record enables the same, or, with none dropped, no ephemeral that enables input was overruled by the hold |
| SessionPhone.PhoneAgreesWithGate | cli/sdk/sdk.go:603-615 | The same for every session on the app's list after any run of the whole cache |
| SessionPhone.UnlistedViewIsFrozen | ios/DelightApp/TerminalUI.swift:395 | While the app does not list the session, an open detail view shows the record it was opened with, whatever updates and ephemerals come |
| SessionPhone.UnlistedViewMatchesExactly | ios/DelightApp/TerminalUI.swift:395-410 | While no switch is cached, such a view fits the send gate if and only if it shows a switch or enables what the cached record does |
| SessionPhone.DroppedReplyMisleadsApp | cli/sdk/session_fsm_cache.go:7-10 | A run after which the app enables input that the send gate would refuse, since an internal refresh dropped its reply and the update after it had nothing new |
| SessionPhone.HoldMisleadsApp | ios/DelightApp/BridgeModels.swift:378-393 | A run that does the same with nothing dropped: an ephemeral within the working hold, which the SDK overrules and the app obeys |
| SessionPhone.OmissionMisleadsView | ios/DelightApp/SDKBridge.swift:4396 | A run in which a delivered list omits the session, the update after it is thrown away, and an open detail view enables input that the send gate would refuse |
| SessionPhone.UnlistedReportIsLost | ios/DelightApp/SDKBridge.swift:3126 | An ephemeral for a session that was never listed is cached and sent, and the app has no record of it |
| SessionCalls.EnsuredIsRun | cli/sdk/session_fsm_cache.go:17-33 | Looking a session up is a run of at most one refresh, which is of the given reply and undelivered, and sends no update |
| SessionCalls.SnapshotIsRecentExactly | cli/sdk/session_fsm_cache.go:17-33 | The snapshot that a call goes by is at most 2 s old if and only if it was before or the reply lists the session; one that is cached but not listed stays as it was |
| SessionCalls.FreshExactly | cli/sdk/session_fsm_cache.go:17-25 | After any timed run the look-up goes by the cache if and only if the last step that renewed the session is at most 2 s old |
| SessionCalls.UnlistedSessionStaysOpen | cli/sdk/sdk.go:596-615 | A session once listed as remote and idle, and then no more, passes the send gate at any later time |
| SessionCalls.EnsuredKeepsMark | cli/sdk/sdk.go:716-732 | Looking up makes, moves and clears no mark |
| SessionCalls.PreparedUpdates | cli/sdk/sdk.go:451-502 | Before the RPC only the mark can send an update |
| SessionCalls.FindsExactly | cli/sdk/sdk.go:462 | A switch call finds, and so marks, a session exactly when its snapshot is fresh, or a refresh succeeds and the session is cached or listed |
| SessionCalls.MarkNamesTarget | cli/sdk/sdk.go:459-484 | A call that finds its session marks it to local exactly if it asked for the desktop and to remote exactly if for the phone; that mark still stands after the second look-up, and the cached and sent record names it while it is at most 15 s old |
| SessionCalls.GateReadsPresence | cli/sdk/sdk.go:493-500 | In every reachable cache the take-control gate accepts exactly the connected online sessions |
| SessionCalls.GateRejectsExactly | cli/sdk/sdk.go:488-501 | After any timed run, a take-control request is refused if and only if the session is known and, by the cache and the replies that the call had to ask for, not both connected and online |
| SessionCalls.MarkOutlivesCallExactly | cli/sdk/sdk.go:488-577 | After a switch call the flag is set if and only if the session was marked before or found, and the second refresh failed, the gate rejected it, or the ack named no mode (or a failure had an empty id to clear) |
| SessionCalls.RefusalLeavesMark | cli/sdk/sdk.go:497-498 | A session just listed as offline is marked by a take-control request that is then refused, and stays marked |
| SessionCalls.EndingIsReported | cli/sdk/sdk.go:508-575 | A failed RPC, or one acknowledged with a mode, leaves the session cached and published as not switching, and sends just that record; the acknowledged side is then in control |
| SessionCalls.RefusedExactly | cli/sdk/sdk.go:488-502 | A call answers that a refresh failed, or that it is refused, if and only if it takes control and the second look-up fails, or succeeds and finds a session that is neither local nor remote; it then stops before the RPC |
| SessionCalls.AnsweredExactly | cli/sdk/sdk.go:504-577 | A call that is neither refused nor fails to look again answers as the ack does, and the session is then cached as unmarked and, for an acknowledged mode, with that side in control |
| SessionCalls.TraceIsOfThisCall | cli/sdk/sdk.go:435-578 | Every event of a switch call is a refresh from its own replies, its own mark or its own ending, at most four in all |
| SessionCalls.ResultIsOfTrace | cli/sdk/sdk.go:435-578 | What a switch call answers, leaves in the cache and sends is its verdict with the effect and the updates of its trace |
| SessionCalls.CallIsTimed | cli/sdk/sdk.go:435-578 | If the clock does not go back during the call, its events are a timed run between its first and last reading |
| SessionCalls.CallExtendsRun | cli/sdk/sdk.go:435-578 | A timed run followed by a timed call is a timed run, so the laws of runs hold after calls |
| SessionClient.Client.ListSessions | cli/sdk/sdk.go:651-741 | The cache becomes the refreshed one and the reply carries each row's record; a row without an id is enriched but not cached |
| SessionClient.Client.EnrichRow | cli/sdk/sdk.go:716-732 | One row's record and its effect on the cache |
| SessionClient.Client.ApplyEphemeralActivity | cli/sdk/sdk.go:1072-1125 | Takes the activity step for a non-empty id and sends an update exactly when that step publishes; otherwise nothing changes |
| SessionClient.Client.ApplyAgentState | cli/sdk/sdk.go:1186-1221 | Takes the agent-state step, with an update exactly when it publishes |
| SessionClient.Client.ClearSessionSwitching | cli/sdk/session_ui_updates.go:42-60 | Takes the failure step and sends its update, unless the id is empty; then nothing changes |
| SessionClient.Client.EnsureSessionFSM | cli/sdk/session_fsm_cache.go:17-33 | Exactly when the snapshot is missing, never fetched or over 2 s old, refreshes once from the given reply, which it drops; fails exactly if that refresh does, and then changes nothing |
| SessionClient.Client.MarkSwitching | cli/sdk/sdk.go:463-484 | Takes the mark step on a known session and sends an update exactly when the record is new |
| SessionClient.Client.RecordSwitch | cli/sdk/sdk.go:548-573 | Takes the success step and sends its update |
| SessionClient.Client.PrepareSwitch | cli/sdk/sdk.go:451-502 | Verdict, cache and updates before the RPC are those of the call's inputs: look up, mark if found, look up again to take control, then decide |
| SessionClient.Client.CompleteSwitch | cli/sdk/sdk.go:504-577 | After the RPC: the ending that the ack calls for, with its update |
| SessionClient.Client.CallSwitch | cli/sdk/sdk.go:435-578 | Verdict, cache and updates of a whole switch call are exactly the result of the call, which is that of its trace |
| SessionClient.Client.GateSend | cli/sdk/sdk.go:603-615 | A message is let through exactly if the look-up succeeds and leaves a remote session that is not working; each refusal names its cause; the cache changes by the look-up alone |
| Messages.SortsBeforeIsStrictTotalOrder | ios/DelightApp/SDKBridge.swift:4923-4933 | The sort key is irreflexive, asymmetric, transitive, and total on rows with distinct ids; the next row says what order it is |
| Messages.SortedReadsInOrder | ios/DelightApp/SDKBridge.swift:4923-4933 | In a sorted list a row without a number stands above a numbered one only if that number is the largest of 64 bits; numbers do not fall; rows with equal or no numbers come by time, an absent one counting as 0, and then by id |
| Messages.IdLessTotal | ios/DelightApp/SDKBridge.swift:4932 | Exactly one of two ids comes first, unless they are equal |
| Messages.IdLessIsAlphabetical | ios/DelightApp/SDKBridge.swift:4932 | An id comes first exactly if it is a proper prefix of the other or has the smaller character where they first differ |
| Messages.IdLessTransitive | ios/DelightApp/SDKBridge.swift:4932 | The order of ids is transitive |
| Messages.InsertKeepsSorted | ios/DelightApp/SDKBridge.swift:4808 | Inserting a row with a new id into a sorted list keeps it sorted and adds just that row |
| Messages.SortedOf | ios/DelightApp/SDKBridge.swift:4808 | Rows keyed by id have a sorted arrangement that holds exactly them |
| Messages.SortIsUnique | ios/DelightApp/SDKBridge.swift:4789-4808 | Any two sorted arrangements of the same rows are equal, so sorting does not depend on dictionary order |
| Messages.SortedIdsDistinct | ios/DelightApp/SDKBridge.swift:4765-4808 | In a sorted list of rows keyed by id no id comes twice |
| Squash.LaterRowIsKeptUnless | ios/DelightApp/SDKBridge.swift:4840-4855 | Of two duplicates in sorted order the later one is kept, unless only the earlier one has a uuid, or they are alike in that, lack sequence numbers to compare, and the earlier one is newer |
| Squash.DuplicatesExactly | ios/DelightApp/SDKBridge.swift:4834-4838 | Duplicates are two user rows of equal content, both timed, at most 5 s apart either way |
| Squash.SquashDuplicateUserMessages | ios/DelightApp/SDKBridge.swift:4811-4832 | The loop computes the squash whose laws follow, also on lists shorter than two rows |
| Squash.SquashIsSubsequence | ios/DelightApp/SDKBridge.swift:4811-4832 | Squashing yields a subsequence of its input |
| Squash.SquashLosesNothing | ios/DelightApp/SDKBridge.swift:4811-4855 | Every row reaches a surviving row by a chain of same-content user rows, each within 5 s of the next and none giving up a uuid |
| Squash.OnlyUsersGiveWay | ios/DelightApp/SDKBridge.swift:4819-4829 | A row that is not the user's always survives |
| Squash.SquashLeavesNoDuplicates | ios/DelightApp/SDKBridge.swift:4811-4832 | When no triple of the input steps back in time, no two adjacent result rows are duplicates |
| Squash.SquashFixpoint | ios/DelightApp/SDKBridge.swift:4811-4832 | Squashing leaves a list alone if and only if it has no adjacent duplicates, and never lengthens one |
| Squash.SquashIdempotent | ios/DelightApp/SDKBridge.swift:4811-4832 | Under the same condition squashing twice is squashing once |
| Squash.SquashesOnceExactly | ios/DelightApp/SDKBridge.swift:4811-4832 | Every subsequence of a list squashes once for all if and only if no triple of the list steps back: an earlier duplicate of a row that takes another's place is a duplicate of that other |
| Squash.TimelyRowsSquashOnce | ios/DelightApp/SDKBridge.swift:4811-4832 | Rows whose creation times never decrease meet the condition, so no adjacent duplicates are left and squashing is idempotent |
| Squash.UnsteadySquashesTwice | ios/DelightApp/SDKBridge.swift:4819-4830 | Any three rows that step back keep a pair of duplicates, which a second squash folds |
| Squash.NewestRowIsKept | ios/DelightApp/SDKBridge.swift:4840-4855 | In sorted rows that all have sequence numbers, the newest survives if it has a uuid or no row has one |
| Squash.SortedAloneIsNotEnough | ios/DelightApp/SDKBridge.swift:4808-4832 | Three sorted rows with distinct ids that step back, and that a second squash changes again |
| Merge.IncomingWins | ios/DelightApp/SDKBridge.swift:4765-4771 | The dictionary has every id of both lists; an incoming row wins over an existing one, and other rows are unchanged |
| Merge.IndexServerEchoes | ios/DelightApp/SDKBridge.swift:4782-4788 | The index holds the creation times of the page's server-side user rows by content, all of them and no others |
| Merge.KeepsRow | ios/DelightApp/SDKBridge.swift:4789-4806 | A row is filtered out exactly if it is an optimistic bubble whose localID the page carries, or whose content the page has from the server within 5 s |
| Merge.FilterValues | ios/DelightApp/SDKBridge.swift:4789-4806 | Whatever order the dictionary is visited in, what is kept is exactly the rows that survive the filter, once each |
| Merge.SortMessages | ios/DelightApp/SDKBridge.swift:4808 | The result is sorted and holds exactly the given rows |
| Merge.MergeMessages | ios/DelightApp/SDKBridge.swift:4761-4809 | The merge, run over an arbitrary dictionary order, has one result for given lists |
| Merge.MergeIsOrdered | ios/DelightApp/SDKBridge.swift:4761-4809 | For non-empty lists the result is sorted and its ids are distinct; what that order is says the next row |
| Merge.MergeReadsInOrder | ios/DelightApp/SDKBridge.swift:4808 | The result of merging non-empty lists has pending bubbles below all numbered rows, numbers that do not fall, and rows with equal or no numbers by time and then id |
| Merge.MergeInventsNothing | ios/DelightApp/SDKBridge.swift:4761-4809 | Every result row is the winning version of its id and passed the filter |
| Merge.MergeLosesNothing | ios/DelightApp/SDKBridge.swift:4761-4855 | For every id of the union: a winning row that is not the user's is in the result; a user row is there or linked by a chain of duplicates to a row that is; an optimistic bubble is dropped exactly when the page echoes it |
| Merge.PageRowIsRepresented | ios/DelightApp/SDKBridge.swift:4769-4771 | With distinct ids in the page, each page row that is no bubble is in the result or linked to a row of it |
| Merge.DroppedBubbleIsRepresented | ios/DelightApp/SDKBridge.swift:4789-4805 | A bubble is never dropped without its echo: a page row with its localID is represented, and a bubble without a uuid dropped by the time window is linked to a row of the result itself |
| Merge.BubbleIsDroppedExactly | ios/DelightApp/SDKBridge.swift:4789-4805 | A bubble that no page row replaces is gone if the page echoes it, and otherwise is in the result or linked to a row of it |
| Merge.MergeLeavesNoDuplicates | ios/DelightApp/SDKBridge.swift:4808 | If the retained rows do not step back when sorted, the merge leaves no adjacent duplicates and squashing it again changes nothing |
| Merge.MergeMayLeaveDuplicates | ios/DelightApp/SDKBridge.swift:4808 | Two lists whose merge leaves duplicates that squashing again, or merging the same page again, would fold |
| Merge.MergeOfKnown | ios/DelightApp/SDKBridge.swift:4761-4809 | Merging a page that holds only rows already there, and echoes no bubble, changes nothing if and only if there are no adjacent duplicates |
| Merge.ChainKeepsUUID | ios/DelightApp/SDKBridge.swift:4840-4846 | Along a chain role and content stay the same and a uuid is never traded for none |
| Merge.SurvivorKeepsUUID | ios/DelightApp/SDKBridge.swift:4840-4846 | A row with a uuid is represented only by rows with one |
| TranscriptRuns.Transcript.AppendOptimistic | ios/DelightApp/SDKBridge.swift:2678-2691 | Sending appends the bubble named after its localID |
| TranscriptRuns.Transcript.SquashUserEchoes | ios/DelightApp/SDKBridge.swift:4857-4887 | A row with a uuid replaces the last duplicate without one; a row without is dropped exactly when a duplicate with one is there |
| TranscriptRuns.Transcript.AppendLive | ios/DelightApp/SDKBridge.swift:3182-3234 | A live message takes the live step |
| TranscriptRuns.Transcript.ApplyUIEvent | ios/DelightApp/SDKBridge.swift:3744-3749 | A UI event replaces the row with its id in place, or is appended |
| TranscriptRuns.Transcript.ApplyPage | ios/DelightApp/SDKBridge.swift:4715-4736 | A reset page replaces the rows, another is merged; the result is kept for the selected session |
| TranscriptRuns.Transcript.SelectSession | ios/DelightApp/SDKBridge.swift:1901-1914 | A selection shows the transcript kept for the session, or no rows |
| TranscriptRuns.Transcript.ClearSession | ios/DelightApp/SDKBridge.swift:1265-1268 | Clearing shows no rows and keeps all transcripts |
| TranscriptRuns.LiveKeepsWellFormed | ios/DelightApp/SDKBridge.swift:3182-3234 | A live message keeps ids distinct and leaves no bubble beside its echo |
| TranscriptRuns.PageKeepsWellFormed | ios/DelightApp/SDKBridge.swift:4715-4719 | So does a merged page with distinct server ids |
| TranscriptRuns.StepKeepsWellFormed | ios/DelightApp/SDKBridge.swift:2678-2691 | So does every step, local notes and UI event removal included |
| TranscriptRuns.EveryTranscriptWellFormed | ios/DelightApp/SDKBridge.swift:4761-4809 | In every run, whatever is selected in between, row ids are distinct in what is shown and in every transcript kept, and an optimistic bubble never stands beside the server's echo with its localID |
| TranscriptRuns.LiveLosesNothing | ios/DelightApp/SDKBridge.swift:3182-3234 | A live message displaces only its own bubble, a bubble with the same content, or a duplicate that gives way to it; it is left out only if its id, or a duplicate with a uuid, is there already |
| TranscriptRuns.LiveGoesLast | ios/DelightApp/SDKBridge.swift:3182-3187 | A live message whose id is known changes nothing; one that is not the user's and is new goes to the end |
| TranscriptRuns.EchoReplacesItsBubble | ios/DelightApp/SDKBridge.swift:3189-3205 | A user row takes the place of the first bubble with its localID, and every other row stays where it is |
| TranscriptRuns.UUIDReplacesPlain | ios/DelightApp/SDKBridge.swift:4857-4875 | A user row with a uuid and no bubble takes the place of the last duplicate without one |
| TranscriptRuns.PlainIsDropped | ios/DelightApp/SDKBridge.swift:4876-4887 | A row without a uuid is dropped if a duplicate with one is there |
| TranscriptRuns.OtherUserRowGoesLast | ios/DelightApp/SDKBridge.swift:3206-3234 | Any other user row goes to the end, and the last bubble of its content, if any, is taken out |
| TranscriptRuns.OwnRowsGoLast | ios/DelightApp/SDKBridge.swift:2678-2691 | A sent message or a local note is shown last, behind all rows as they were |
| TranscriptRuns.UIEventKeepsItsPlace | ios/DelightApp/SDKBridge.swift:3744-3749 | A UI event is shown in the place of the first row with its id, or else last |
| TranscriptRuns.RemovalTakesOneRow | ios/DelightApp/SDKBridge.swift:3755-3762 | Removing a UI event takes out one row with its id and keeps the others in order |
| TranscriptRuns.PageIsShownAndKept | ios/DelightApp/SDKBridge.swift:4715-4736 | A reset page is shown, another merged; the result is kept for the selected session and no other |
| TranscriptRuns.KeptIsLastPaged | ios/DelightApp/SDKBridge.swift:4731-4736 | Along every run, what is kept for a session is what its last page left on the screen |
| TranscriptRuns.SelectionRestores | ios/DelightApp/SDKBridge.swift:1901-1914 | A selection shows just that, or no rows; clearing shows none, and neither changes what is kept |
| FetchProtocol.ViewModel.SelectSession | ios/DelightApp/SDKBridge.swift:1900-1936 | Takes the select step: new generation, cached transcript or none shown, spinner on, reset fetch queued |
| FetchProtocol.ViewModel.RunFetchLatest | ios/DelightApp/SDKBridge.swift:1946-1965 | The queued block takes the run-latest step on the session selected when it runs |
| FetchProtocol.ViewModel.FetchOlderMessages | ios/DelightApp/SDKBridge.swift:2011-2024 | Takes the fetch-older step behind its four guards |
| FetchProtocol.ViewModel.ApplyMessagesResponse | ios/DelightApp/SDKBridge.swift:4691-4759 | Takes the reply step, whose effect the rows on replies below state; another session's or generation's reply changes nothing |
| FetchProtocol.ViewModel.ShowPage | ios/DelightApp/SDKBridge.swift:4715-4736 | The page replaces or joins the rows, and the result is cached under the selected session |
| FetchProtocol.ViewModel.HandleFetchError | ios/DelightApp/SDKBridge.swift:1999-2004 | Takes the failure step: a latest fetch clears its spinner only if current, a history fetch always |
| FetchProtocol.ViewModel.ClearSessionState | ios/DelightApp/SDKBridge.swift:1265-1289 | Clears the selection and the rows; cache, generation and spinners stay |
| FetchProtocol.EveryViewPure | ios/DelightApp/SDKBridge.swift:4691-4759 | Over every interleaving, and however sessions own rows, the visible rows and every cached transcript hold only rows of their own session, if each reply does |
| FetchProtocol.StepKeepsPure | ios/DelightApp/SDKBridge.swift:4702-4736 | One step keeps that |
| FetchProtocol.SelectKeepsBacked | ios/DelightApp/SDKBridge.swift:1900-1931 | Selecting leaves a lit spinner with a queued reset behind it |
| FetchProtocol.RunLatestKeepsBacked | ios/DelightApp/SDKBridge.swift:1946-1965 | Starting the latest fetch leaves a request of the new generation behind the spinner |
| FetchProtocol.FetchOlderKeepsBacked | ios/DelightApp/SDKBridge.swift:2011-2024 | A history spinner is lit only with its request |
| FetchProtocol.ReplyKeepsBacked | ios/DelightApp/SDKBridge.swift:4702-4757 | A reply that takes the last request behind a spinner turns it off |
| FetchProtocol.FailKeepsBacked | ios/DelightApp/SDKBridge.swift:1999-2004 | So does a failure |
| FetchProtocol.EverySpinnerBacked | ios/DelightApp/SDKBridge.swift:1942-2058 | Over every interleaving, while a session is selected, a spinner is on only if a request of that session and generation is in flight or, for the latest page, a reset fetch is queued |
| FetchProtocol.SpinnersCannotStick | ios/DelightApp/SDKBridge.swift:1942-2058 | With nothing queued and nothing in flight, no spinner is on |
| FetchProtocol.StepHidesExactly | ios/DelightApp/SDKBridge.swift:1999-2058 | Where each current request has its spinner on, an action keeps that if and only if it does not turn a spinner off while another current request of the kind waits |
| FetchProtocol.AnswerTurnsOff | ios/DelightApp/SDKBridge.swift:1999-2058 | A reply or failure takes away its request and no other, and turns off the spinner of its kind exactly if it is a current reply, a failed history fetch, or a failed current latest one; a failure or stale reply touches no rows, cache or queue |
| FetchProtocol.RequestsShownExactly | ios/DelightApp/SDKBridge.swift:1942-2058 | It holds all along a run if and only if no action of the run does that |
| FetchProtocol.AnsweredResetHidesFetch | ios/DelightApp/SDKBridge.swift:4752-4754 | The reset's page turns the spinner off under the merging fetch that a send started meanwhile; nothing failed |
| FetchProtocol.StaleFailureHidesFetch | ios/DelightApp/SDKBridge.swift:2051-2054 | A history fetch from an earlier selection fails and turns the spinner off under the current one |
| FetchProtocol.GenerationNeverFalls | ios/DelightApp/SDKBridge.swift:1903 | The generation never falls, whatever steps follow |
| FetchProtocol.StaleReplyIgnored | ios/DelightApp/SDKBridge.swift:4703-4708 | A request in flight when a session is selected, or a reset begins, can never again change rows, cache or spinners, even once its session is selected again |
| FetchProtocol.ReplyIsShownAndKept | ios/DelightApp/SDKBridge.swift:4702-4757 | A current reply leaves on screen and in the cache of its session the same rows, the page's hasMore, and the least number shown as the oldest loaded; other sessions' transcripts stay, and the spinner of its kind is off |
| FetchProtocol.ResetReplyShowsPage | ios/DelightApp/SDKBridge.swift:4715-4716 | A current reset page, from server or disk, is exactly what is shown |
| FetchProtocol.MergingReplyLosesNothing | ios/DelightApp/SDKBridge.swift:2036-2046 | A current older page, or latest one that does not reset, keeps every row that is not the user's unless the page has its id; each user row, unless the page has its id or it is an echoed bubble, is shown or linked to a row shown; so is each page row; and nothing else is shown |
| FetchProtocol.MergingReplyReadsInOrder | ios/DelightApp/SDKBridge.swift:4808 | What is shown after it is in order |
| FetchProtocol.MinSeqIsOldest | ios/DelightApp/SDKBridge.swift:4728 | The oldest loaded number is that of a row shown and none is less, or no row has one |
| FetchProtocol.KeptIsLastPage | ios/DelightApp/SDKBridge.swift:4731-4736 | Along every run, what is cached for a session is what its last current page left on the screen |
| FetchProtocol.SelectionShowsKept | ios/DelightApp/SDKBridge.swift:1900-1931 | After any run a selection shows just that, or nothing, with the spinner on and a reset queued last; the page on disk is asked for exactly if there is one and no page was kept |
| FetchProtocol.SelectionAsksDiskExactly | ios/DelightApp/SDKBridge.swift:1916-1928 | A selection adds at most one request, for the page on disk, exactly if there is one and nothing is cached |
| FetchProtocol.LatestIsQueuedLast | ios/DelightApp/SDKBridge.swift:1942-1948 | A latest fetch waits behind those queued before it and changes nothing yet |
| FetchProtocol.LatestIsSentExactly | ios/DelightApp/SDKBridge.swift:1946-1965 | The oldest queued fetch is sent once for the session selected by then, a reset under a new generation, or with none selected not at all |
| FetchProtocol.OlderIsSentExactly | ios/DelightApp/SDKBridge.swift:2011-2024 | A history fetch is sent exactly when a session is shown with more to load from above number 0 and none is loading; otherwise nothing changes |
| FetchProtocol.ClearKeepsTheRest | ios/DelightApp/SDKBridge.swift:1265-1289 | Clearing shows no session and no rows, and keeps cache, queue, requests and generation |
| FetchProtocol.SelectionIsAnswered | ios/DelightApp/SDKBridge.swift:1900-2009 | However other blocks interleave, until the selection is answered or left a reset fetch is queued or its current request is in flight; the reply to it is then shown and cached, with the spinner off |
| FetchProtocol.RunLeavesPending | ios/DelightApp/SDKBridge.swift:1942-1965 | A pending reset stays pending over any steps that neither answer it nor change the selection |
| FetchProtocol.PageStays | ios/DelightApp/SDKBridge.swift:4702-4736 | What is shown and cached stays until the next current page, selection or clearing |
| ActorLoop.ActorRefinesFold | cli/internal/actor/actor.go:195-275 | In every interleaving of the two loops, callers and goroutines that handlers started, the state and effect batches are the reducer folded over the processed inputs; accepted inputs are processed, then in hand, then queued, in order; batches likewise, up to one given up on cancellation; both queues stay within capacity |
| ActorLoop.EveryInputIsAccountedFor | cli/internal/actor/actor.go:162-262 | In every interleaving, as multisets, accepted inputs and those still in hand, waiting or given up are those that callers had accepted and emit was called with; something is given up only after cancellation |
| ActorLoop.StepConserves | cli/internal/actor/actor.go:253-262 | Every single step keeps that |
| ActorLoop.AcceptedIsLast | cli/internal/actor/actor.go:162-182 | An input that is enqueued or delivered is the last of the mailbox and of those accepted, once, and leaves where it waited; a rejected one changes nothing |
| ActorLoop.EmittedIsHeld | cli/internal/actor/actor.go:253-262 | What emit is called with is held by the runtime, or waits in the background, until it is delivered or given up |
| ActorLoop.HandlersCanEmit | cli/internal/actor/actor.go:252-272 | In every run goroutines of handlers can call emit if and only if there is a runtime and it was handed a batch |
| ActorLoop.StopLasts | cli/internal/actor/actor.go:149-154 | Stop is final and changes nothing else |
| ActorLoop.ReduceKeepsRefines | cli/internal/actor/actor.go:219-242 | Reducing one input is one more step of the fold |
| ActorLoop.LoopKeepsRefines | cli/internal/actor/actor.go:207-244 | Receiving, offering, exiting, and outside calls keep every input and batch in order |
| ActorLoop.TakeBatchKeepsRefines | cli/internal/actor/actor.go:268-272 | The runtime takes the oldest batch, and without a runtime that batch counts as handled |
| ActorLoop.EmitKeepsRefines | cli/internal/actor/actor.go:253-262 | An emitted event, from a handler or from a goroutine it started, joins the mailbox behind what was accepted before it; that it does join it is `AcceptedIsLast` |
| ActorLoop.StandsStillExactly | cli/internal/actor/actor.go:195-275 | In every reachable state that is not cancelled, a loop or a waiting call of emit can step if and only if the actor is neither idle with nothing queued or waiting, nor wedged |
| ActorLoop.CancellationUnblocks | cli/internal/actor/actor.go:149-154 | After cancellation each loop has exited or can step, and every waiting call of emit can come back, so no channel operation blocks for good |
| ActorLoop.WedgeLasts | cli/internal/actor/actor.go:236-261 | A wedged actor changes nothing and accepts nothing, whatever is tried, until it is stopped; at most more calls of emit wait |
| ActorLoop.WedgeIsReachableExactly | cli/internal/actor/actor.go:236-261 | The wedge can be reached if and only if there is a runtime and some inputs make the reducer produce effects capacity + 2 times |
| ActorLoop.WedgeNeedsTraffic | cli/internal/actor/actor.go:236-261 | No wedge without a runtime, capacity + 2 effect batches and 2 * capacity + 2 accepted inputs |
| ActorLoop.ActiveActorCanWedge | cli/internal/actor/actor.go:236-261 | With a runtime, a reducer that from every state inputs lead to still answers some input with effects can wedge, whatever the queue size |
| ActorLoop.BuildBacklog | cli/internal/actor/actor.go:236-242 | Inputs that make up to capacity + 1 batches can all be reduced while the runtime handles the first, the others filling the effects queue |
| ActorLoop.FillMailbox | cli/internal/actor/actor.go:162-182 | Outside calls can fill the mailbox completely |
| ActorLoop.Actor.constructor | cli/internal/actor/actor.go:93-130 | The mailbox has the given size, or 256 if that is not positive; the effects queue is as long; the actor starts idle |
| ActorLoop.Actor.EnqueueInput | cli/internal/actor/actor.go:162-182 | Accepts exactly when the actor is not stopped and the mailbox has room; otherwise nothing changes |
| ActorLoop.Actor.LoopNext | cli/internal/actor/actor.go:195-245 | Each segment of the loop is an enabled step of the model, and it blocks only when the model says it must |
| ActorLoop.Actor.RuntimeNext | cli/internal/actor/actor.go:252-275 | The same for the runtime goroutine and its emit |
| ActorLoop.Actor.EmitInBackground | cli/internal/actor/actor.go:253-262 | A goroutine that a handler started calls emit, at any time after the first batch was handed out |
| ActorLoop.Actor.PendingNext | cli/internal/actor/actor.go:257-261 | Such a call comes back by delivering, or after cancellation, and blocks only when the model says it must |
| ActorLoop.Actor.Cancel | cli/internal/actor/actor.go:149-150 | Stop cancels the context: the cancellation step |
| LogRotation.SplitJoins | cli/sdk/logserver.go:67 | Splitting at newlines loses nothing: joining restores the text, and no piece holds a newline |
| LogRotation.LastLinesAppend | cli/sdk/logserver.go:72-75 | Trimming the tail after every line is trimming once at the end |
| LogRotation.TailKeepsLastLines | cli/sdk/logserver.go:66-77 | After any appends the tail is the last hundred of the non-empty lines ever logged, or all of them, in order |
| LogRotation.NonEmptyFilters | cli/sdk/logserver.go:67-71 | Only empty pieces are left out of the lines, and the others stay in order |
| LogRotation.RotationKeepsHistory | cli/sdk/logserver.go:79-156 | After any appends the snapshot is a contiguous suffix of all that was written and at least min(total, 8 MiB) long; the base file is below 2 MiB and every rotated file at least that |
| LogRotation.SnapshotReadsOldestFirst | cli/sdk/logserver.go:144-155 | The snapshot is the contents of files 4, 3, 2, 1 and the base, in this order |
| LogRotation.EveryDirectoryLaidOut | cli/sdk/logserver.go:117-134 | The files that exist are always a run from 1; until the oldest falls off they and the base hold everything |
| LogRotation.AppendKeepsLayout | cli/sdk/logserver.go:79-98 | One append, rotating or not, keeps that layout |
| LogRotation.ContentsShift | cli/sdk/logserver.go:123-131 | Rotation moves content up by one file and changes none |
| LogRotation.LogManager.AppendLogLine | cli/sdk/logserver.go:66-98 | Tail and files become those of one more append, with the tracked size equal to the base file's length |
| LogRotation.LogManager.AppendTail | cli/sdk/logserver.go:66-77 | The loop keeps the last hundred of the old tail and the new non-empty lines |
| LogRotation.LogManager.AppendFile | cli/sdk/logserver.go:79-98 | The line goes to the base file, which is rotated as soon as it holds 2 MiB |
| LogRotation.LogManager.Rotate | cli/sdk/logserver.go:117-134 | The downward renaming loop shifts every file by one in place, drops the oldest, and opens an empty base |
| LogRotation.LogManager.GetLogsSnapshot | cli/sdk/logserver.go:136-156 | The read-back loop returns files 4 to 1 and then the base |
| LogRotation.LogManager.ReadFiles | cli/sdk/logserver.go:144-155 | Missing files are skipped, the others concatenated from the oldest |
| FetchTracker.WorkingIsAccountedFor | cli/internal/claude/process.go:415-477 | In every interleaving an open fetch means working, working without one means that a timer is pending, and the announced changes alternate and end at the present value |
| FetchTracker.TimersAreCounted | cli/internal/claude/process.go:442-455 | Along every run, each end that leaves no fetch open starts one timer, and each timer fires at most once |
| FetchTracker.ListenerHearsAllExactly | cli/internal/claude/process.go:468-472 | What a listener has heard, then what waits for it, is every change in order if and only if no change found the channel full |
| FetchTracker.ListenerMayMissAChange | cli/internal/claude/process.go:468-472 | After five turns that nobody listened to, the sixth is never announced: the channel ends on false while the process works |
| FetchTracker.Process.HandleFetchStart | cli/internal/claude/process.go:416-429 | Takes the start step |
| FetchTracker.Process.HandleFetchEnd | cli/internal/claude/process.go:432-456 | Takes the end step, which may add a timer |
| FetchTracker.Process.FireDebounce | cli/internal/claude/process.go:445-454 | Takes the timer step, which ends work only if no fetch is open by then |
| FetchTracker.Process.SetWorking | cli/internal/claude/process.go:459-477 | Announces a value exactly when it is new, into the channel if that has room |
| FetchTracker.Process.Listen | cli/internal/claude/process.go:485-487 | A listener takes the oldest value waiting |
| RequestAuth.AuthPathsArePublic | cli/sdk/sdk.go:1459-1471 | Both paths that authentication uses are on the public list, which is why the recursion ends |
| RequestAuth.OtherPathsAreProtected | cli/sdk/sdk.go:1384-1388 | Every path outside the five on the list is protected, the answer to a pairing request too |
| RequestAuth.TrailBounds | cli/sdk/sdk.go:1389-1457 | A request makes at most six exchanges, at most two of them to the requested protected path; a public one at most one |
| RequestAuth.RefreshBounds | cli/sdk/auth.go:145-199 | A refresh makes at most two exchanges, to the two auth paths only, and so none to a protected path |
| RequestAuth.Client.DoRequest | cli/sdk/sdk.go:1376-1457 | Terminates; its exchanges follow a trail within the bounds; a protected request first tries a refresh exactly if one is due, and is first sent with the token that leaves; it is refreshed and sent again exactly as the next row says; there is a result if and only if the last reply has a status from 200 to 299, and it is that body, answered to this path with the token held now; a public request touches neither token nor refresh times |
| RequestAuth.Client.Attempt | cli/sdk/sdk.go:1402-1457 | With a server set the request is sent, unless it cannot be built; a refresh follows if and only if the reply to a protected path is a 401; it succeeds exactly when the outside grants a token, and then and only then the request is sent again with the new one; the result is the last reply's body if and only if its status is from 200 to 299 |
| RequestAuth.Client.Retry | cli/sdk/sdk.go:1438-1449 | After a 401 the request is sent again, with the token held then, if and only if the forced refresh succeeded and it can be built; otherwise there is no result |
| RequestAuth.Client.RefreshTokenIfNeeded | cli/sdk/sdk.go:72-114 | Attempts a refresh exactly if the token is known, can be renewed and read, and is forced, or expires soon and 30 s have passed since the last completed refresh; has no error exactly if nothing was due or a token was granted; the token is then the one granted, and otherwise the old one; only a completed attempt sets the refresh time, to the clock at its end |
| RequestAuth.Client.CheckToken | cli/sdk/sdk.go:72-97 | It goes on exactly if a refresh is due, and otherwise comes back with the error or success that its guard calls for, the token unchanged |
| RequestAuth.Client.RefreshEarly | cli/sdk/sdk.go:1389-1391 | A protected path makes one unforced attempt exactly if a refresh is due, whatever comes of it; a public one changes nothing |
| RequestAuth.Client.Renew | cli/sdk/sdk.go:99-113 | An attempt succeeds if and only if challenge and answer bring a token that is not blank, which replaces the old one; the attempt is logged with its times |
| RequestAuth.Client.NoteAttempt | cli/sdk/sdk.go:108-111 | The refresh time becomes the clock at the end of a completed attempt and is kept by a failed one |
| RequestAuth.UnforcedRefreshesAreSpaced | cli/sdk/sdk.go:94-96 | Over any sequence of requests an unforced refresh begins at least 30 s after every completed one before it |
| RequestAuth.FailedRefreshesAreNotSpaced | cli/sdk/sdk.go:94-111 | Two unforced attempts within the same millisecond, both failed |
| RequestAuth.Client.AuthWithMasterKey | cli/sdk/auth.go:145-199 | Returns and stores a token if and only if the key has 32 bytes, the server is set, and both replies are good; it is the one in the answer |
| RequestAuth.Client.GetAuthChallenge | cli/sdk/auth.go:115-141 | Succeeds if and only if the server is set and the reply is a valid challenge, after exactly the challenge exchange; no token changes |
| Text.Trim | cli/sdk/sdk.go:1460 | No white space is left at either end, and trimmed text is unchanged |
| Text.TrimIsMiddle | cli/sdk/sdk.go:1460 | Only white space is cut off, and only at the ends |
| Text.TrimsCommonSpace | cli/sdk/sdk.go:1460 | Blanks, tabs and line ends are cut off, and no visible ASCII character is |
| PromptHistory.OlderThenNewerRestores | ios/DelightApp/SDKBridge.swift:2853-2896 | From any draft, k steps older and k steps newer restore draft and history and leave browsing, also when k exceeds the entries |
| PromptHistory.OlderClimbs | ios/DelightApp/SDKBridge.swift:2867-2873 | k steps older stop at the oldest entry, show the entry that far back, and keep the draft of the first |
| PromptHistory.NewerDescends | ios/DelightApp/SDKBridge.swift:2874-2893 | k steps newer show the entry k further on, or leave browsing with the draft |
| PromptHistory.SteppedWellFormed | ios/DelightApp/SDKBridge.swift:2853-2896 | A step keeps the cursor in range, a draft exactly while browsing, and the entries as they are; no direction changes nothing |
| PromptHistory.RecordedWellFormed | ios/DelightApp/SDKBridge.swift:2924-2934 | Recording keeps adjacent entries different, and none blank or untrimmed; it ends browsing, and a blank prompt changes nothing |
| PromptHistory.RecordedIsOfferedFirst | ios/DelightApp/SDKBridge.swift:2924-2934 | A prompt that is not blank is the first offered again, and at most one entry is added behind the old ones |
| PromptHistory.PromptBox.StepPromptHistory | ios/DelightApp/SDKBridge.swift:2853-2896 | Takes the step on the target session's history and the input text, leaves other sessions alone, and keeps all histories well-formed |
| PromptHistory.PromptBox.ResetPromptHistoryCursor | ios/DelightApp/SDKBridge.swift:2899-2906 | Ends browsing in the target session and changes nothing else |
| PromptHistory.PromptBox.RecordPromptHistory | ios/DelightApp/SDKBridge.swift:2924-2934 | Records in one session only, and keeps all histories well-formed |

## Left out

- HTTP, Socket.IO, JSON and base64 decoding, and all cryptography: replies and decoded records are inputs.
- 64-bit overflow of times and sequence numbers, and of durations: integers are unbounded.
- The check for a missing socket at the start of `callRPC` and `sendMessageWithLocalID`, and what follows an accepted send.
- Type checks and trimming of fields in event payloads: they decide whether a step happens at all.
- Swift's `sorted(by:)` algorithm: `Merge.SortMessages` is an insertion sort, and `Messages.SortIsUnique` shows that any correct sort gives its result.
- Swift's string order compares Unicode-normalised text: ids are ordered character by character, which is the same for the ASCII ids in use.
- `blocksSignature` and block extraction: a row carries its signature.
- TranscriptRuns.EveryTranscriptWellFormed: assumes fresh client ids, server ids distinct within a page, and no server id with the local prefix, which UUIDs and the server's numbering give.
- FetchProtocol.MergingReplyLosesNothing: assumes distinct ids on the screen and in the page, and no server id with the local prefix; `TranscriptRuns.EveryTranscriptWellFormed` shows the first along runs from the same two facts about servers.
- FetchProtocol.EveryViewPure: covers selects and page fetches; live updates, UI events and `rebuildUIEventTranscript` read the selected session again on their own and can cross a selection.
- FetchProtocol.ViewModel.ClearSessionState: only the fields of the page view; the session list, terminals and permission prompts it also clears are not modelled.
- Scrolling, activity times and the disk copy written by `applyMessagesResponse`.
- ActorLoop.ActorRefinesFold: nil inputs, observability hooks and reducer panics are not modelled; a handler is what it emits, and `Return` stands for its end.
- ActorLoop.Actor.EnqueueInput: its two selects are one atomic step, so a stop that falls between them is taken to come after.
- LogRotation.LogManager.AppendFile: file operations succeed and the directory is set; the `setDir` call under a lock already held (cli/sdk/logserver.go:81) is not modelled.
- FetchTracker.WorkingIsAccountedFor: handlers are atomic; the gap between releasing the lock and `setWorking` is not modelled.
- ActorLoop.Actor.Cancel: `Stop` also calls the runtime's own `Stop`, which is the supplied runtime's code.
- SessionPhone.AppMatchesGatesExactly: a listener is registered, encoding and decoding succeed, and the app applies lists, updates and ephemerals in the order in which the SDK hands them over.
- SessionList.AppRunIsLocal: a listed row with an empty id, rows without an injected record, and ephemerals that lack a flag or are of another type than activity, which the server does not send, are not modelled.
- RequestAuth.Client.DoRequest: recovered panics are not modelled; building the two auth bodies cannot fail.
- CLI flags, process spawning, wire payload structs, views and markdown extraction: each claim about them is settled by reading one branch.
