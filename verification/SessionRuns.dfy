/** What holds of the session cache in every run: of one session's history first, then of the whole cache. */
module SessionRuns {
  import opened Common
  import opened SessionFsm
  import opened SessionSteps
  import opened SessionView

  /** The clock is positive and never goes back, within a step or between steps. */
  ghost predicate Timed(h: seq<LocalEvent>) {
    && (forall i | 0 <= i < |h| :: 0 < h[i].Begin() <= h[i].now)
    && (forall i, j | 0 <= i < j < |h| :: h[i].now <= h[j].Begin())
  }

  // ----- Cached entries: coherence, flags and the published view -----

  /** The zero entry that clearing an unknown session inserts. */
  ghost predicate Blank(e: Entry) {
    e.state == Unset && e.fetchedAt == 0 && !e.online && !e.connected && !e.working
  }

  ghost predicate Coherent(e: Entry) {
    e.state == ComputeSessionFSM(e.connected, e.online, e.controlledByUser).state && 0 < e.fetchedAt
  }

  ghost predicate FlagsTogether(e: Entry) {
    (e.switching <==> e.transition != NoTransition) && (e.switching <==> e.switchingAt != 0)
  }

  ghost predicate Good(s: LocalState) {
    && (s.entry.Some? <==> s.published.Some?)
    && (s.entry.Some? ==>
      var e, ui := s.entry.value, s.published.value;
      && (Blank(e) || Coherent(e))
      && FlagsTogether(e)
      && e.uiJSON == s.published
      && (ui.connected, ui.online, ui.working) == (e.connected, e.online, e.working)
      && ViewAgrees(e, ui))
  }

  function CachedRecord(s: LocalState): Option<SessionUI> {
    if s.entry.Some? then s.entry.value.uiJSON else None
  }

  lemma ListedKeepsGood(s: LocalState, now: int, connected: bool, row: ListedSession)
    requires Good(s) && 0 < now
    ensures Good(s.Take(ListedStep(s.entry, now, connected, row)))
  {
  }

  lemma ActivityKeepsGood(s: LocalState, now: int, socket: Option<bool>, active: bool, working: bool)
    requires Good(s) && 0 < now
    ensures Good(s.Take(ActivityStep(s.entry, now, socket, active, working)))
  {
  }

  lemma AgentStateKeepsGood(s: LocalState, now: int, socket: Option<bool>, agentState: Option<bool>)
    requires Good(s) && 0 < now
    ensures Good(s.Take(AgentStateStep(s.entry, now, socket, agentState)))
  {
  }

  lemma MarkKeepsGood(s: LocalState, begin: int, now: int, mode: ControlMode)
    requires Good(s) && 0 < begin <= now
    ensures Good(s.Take(MarkStep(s.entry, begin, now, mode)))
  {
  }

  lemma SuccessKeepsGood(s: LocalState, begin: int, now: int, mode: ControlMode)
    requires Good(s) && 0 < begin
    ensures Good(s.Take(SuccessStep(s.entry, begin, now, mode)))
  {
  }

  lemma FailureKeepsGood(s: LocalState, now: int)
    requires Good(s)
    ensures Good(s.Take(FailureStep(s.entry, now)))
  {
  }

  lemma StepKeepsGood(s: LocalState, e: LocalEvent)
    requires Good(s) && 0 < e.Begin() <= e.now
    ensures Good(s.After(e))
  {
    match e
    case Listed(now, connected, row, _) => ListedKeepsGood(s, now, connected, row);
    case Activity(now, socket, active, working) => ActivityKeepsGood(s, now, socket, active, working);
    case AgentStateChanged(now, socket, agentState) => AgentStateKeepsGood(s, now, socket, agentState);
    case SwitchMarked(begin, now, mode) => MarkKeepsGood(s, begin, now, mode);
    case SwitchSucceeded(begin, now, mode) => SuccessKeepsGood(s, begin, now, mode);
    case SwitchFailed(now) => FailureKeepsGood(s, now);
    case Forgotten(_) =>
  }

  lemma {:induction false} EveryStateGood(h: seq<LocalEvent>, k: nat)
    requires Timed(h) && k <= |h|
    ensures Good(StateAt(h, k))
  {
    if k > 0 {
      EveryStateGood(h, k - 1);
      StepKeepsGood(StateAt(h, k - 1), h[k - 1]);
    }
  }

  /**
   An update goes out exactly when the record differs from the cached one, which SessionPhone
   compares with the record the app holds.
   */
  lemma EmitsExactlyOnChange(h: seq<LocalEvent>, k: nat)
    requires Timed(h) && k < |h|
    ensures var out, seen := LocalStep(StateAt(h, k).entry, h[k]), CachedRecord(StateAt(h, k));
      && (h[k].Activity? || h[k].AgentStateChanged? ==> (out.published <==> out.ui != seen))
      && (h[k].SwitchMarked? ==> (out.published <==> seen.Some? && out.ui != seen))
      && (h[k].Listed? || h[k].SwitchSucceeded? || h[k].SwitchFailed? ==> out.published)
      && (h[k].Forgotten? ==> !out.published)
  {
    EveryStateGood(h, k);
  }

  // ----- Presence and control -----

  function PresenceOf(entry: Option<Entry>): (bool, bool) {
    if entry.Some? then (entry.value.connected, entry.value.online) else (false, false)
  }

  function ControlOf(entry: Option<Entry>): Option<bool> {
    if entry.Some? then Some(entry.value.controlledByUser) else None
  }

  /** What a step says of who controls the session, if anything. */
  function ControlReport(e: LocalEvent): Option<bool> {
    if e.Listed? then e.row.agentState
    else if e.AgentStateChanged? then e.agentState
    else if e.SwitchSucceeded? then Some(e.mode == ByDesktop)
    else None
  }

  /** The step caches a session that it did not find. */
  predicate MakesKnown(e: LocalEvent) {
    !e.SwitchMarked? && !e.Forgotten?
  }

  lemma ControlAfter(stored: Option<Entry>, e: LocalEvent)
    ensures ControlOf(LocalStep(stored, e).entry) ==
      if ControlReport(e).Some? then ControlReport(e)
      else if stored.Some? || !MakesKnown(e) then ControlOf(stored)
      else Some(e.Listed?)
  {
  }

  /** Who controls a session is what the latest step that said anything of it said. */
  lemma {:induction false} ControlFollowsLatestReport(h: seq<LocalEvent>, i: nat, k: nat)
    requires i < k <= |h| && ControlReport(h[i]).Some?
    requires forall j | i < j < k :: ControlReport(h[j]).None?
    ensures ControlOf(StateAt(h, k).entry) == ControlReport(h[i])
  {
    ControlAfter(StateAt(h, k - 1).entry, h[k - 1]);
    if k > i + 1 {
      ControlFollowsLatestReport(h, i, k - 1);
    }
  }

  /**
   Before anything is said, the desktop is taken to control a session that a list made known, and
   the phone one that any other step made known. Marks make no session known.
   */
  lemma {:induction false} ControlBeforeAnyReport(h: seq<LocalEvent>, i: nat, k: nat)
    requires i < k <= |h| && MakesKnown(h[i]) && forall j | 0 <= j < i :: !MakesKnown(h[j])
    requires forall j | 0 <= j < k :: ControlReport(h[j]).None?
    ensures ControlOf(StateAt(h, k).entry) == Some(h[i].Listed?)
  {
    ControlAfter(StateAt(h, k - 1).entry, h[k - 1]);
    if k > i + 1 {
      ControlBeforeAnyReport(h, i, k - 1);
    } else {
      NothingMadeKnown(h, i);
    }
  }

  lemma {:induction false} NothingMadeKnown(h: seq<LocalEvent>, k: nat)
    requires k <= |h| && forall j | 0 <= j < k :: !MakesKnown(h[j])
    ensures StateAt(h, k).entry == None
  {
    if k > 0 {
      NothingMadeKnown(h, k - 1);
    }
  }

  /**
   Reports replace what is known of presence; marks and failures leave it alone. A session that an
   agent update or a switch meets with no state yet is taken to be connected and online.
   */
  lemma PresenceAfter(stored: Option<Entry>, e: LocalEvent)
    ensures var (connected, online) := PresenceOf(stored);
      var stateless := stored.GetOr(Entry.Zero).state == Unset;
      PresenceOf(LocalStep(stored, e).entry) ==
        if e.Listed? then (e.connected, e.row.active)
        else if e.Activity? then (e.socket.GetOr(connected), e.active)
        else if stateless && (e.AgentStateChanged? || e.SwitchSucceeded?) then (true, true)
        else (if e.AgentStateChanged? then e.socket.GetOr(connected) else connected, online)
  {
    match e
    case Listed(_, _, _, _) =>
    case Activity(_, _, _, _) =>
    case AgentStateChanged(_, _, _) =>
    case SwitchMarked(_, _, _) =>
    case SwitchSucceeded(_, _, _) =>
    case SwitchFailed(_) =>
    case Forgotten(_) =>
  }

  function OnlineReport(e: LocalEvent): Option<bool> {
    if e.Listed? then Some(e.row.active) else if e.Activity? then Some(e.active) else None
  }

  /** The socket state a step reads, if it reads one. */
  function SocketReport(e: LocalEvent): Option<bool> {
    if e.Listed? then Some(e.connected) else if e.Activity? || e.AgentStateChanged? then e.socket else None
  }

  predicate Stateless(entry: Option<Entry>) {
    entry.GetOr(Entry.Zero).state == Unset
  }

  lemma StateIsNeverLost(stored: Option<Entry>, e: LocalEvent)
    ensures Stateless(LocalStep(stored, e).entry) ==> Stateless(stored) && (!MakesKnown(e) || e.SwitchFailed?)
  {
  }

  /** A session is online when the latest list or ephemeral said so, whatever came after. */
  lemma {:induction false} OnlineFollowsLatestReport(h: seq<LocalEvent>, i: nat, k: nat)
    requires i < k <= |h| && OnlineReport(h[i]).Some?
    requires forall j | i < j < k :: OnlineReport(h[j]).None?
    ensures !Stateless(StateAt(h, k).entry) && PresenceOf(StateAt(h, k).entry).1 == OnlineReport(h[i]).value
  {
    var stored, e := StateAt(h, k - 1).entry, h[k - 1];
    PresenceAfter(stored, e);
    StateIsNeverLost(stored, e);
    if k > i + 1 {
      OnlineFollowsLatestReport(h, i, k - 1);
    }
  }

  /**
   It is connected when the latest socket reading said so, whatever came after; but an agent update
   that meets a session without a state takes it to be connected whatever the socket says.
   */
  lemma {:induction false} ConnectedFollowsLatestReading(h: seq<LocalEvent>, i: nat, k: nat)
    requires i < k <= |h| && SocketReport(h[i]).Some?
    requires forall j | i < j < k :: SocketReport(h[j]).None?
    ensures !Stateless(StateAt(h, k).entry)
    ensures PresenceOf(StateAt(h, k).entry).0
      <==> SocketReport(h[i]).value || (h[i].AgentStateChanged? && Stateless(StateAt(h, i).entry))
  {
    var stored, e := StateAt(h, k - 1).entry, h[k - 1];
    PresenceAfter(stored, e);
    StateIsNeverLost(stored, e);
    if k > i + 1 {
      ConnectedFollowsLatestReading(h, i, k - 1);
    }
  }

  // ----- Switching -----

  /** Step i marked a session that it found cached. */
  predicate Marks(h: seq<LocalEvent>, i: nat)
    requires i < |h|
  {
    h[i].SwitchMarked? && StateAt(h, i).entry.Some?
  }

  /** The latest mark among the first k steps that found its session cached. */
  function LastMark(h: seq<LocalEvent>, k: nat): (m: Option<nat>)
    requires k <= |h|
    ensures m.Some? ==> m.value < k && Marks(h, m.value)
    ensures forall i: nat | (if m.Some? then m.value + 1 else 0) <= i < k :: !Marks(h, i)
  {
    if k == 0 then None
    else if Marks(h, k - 1) then Some(k - 1)
    else LastMark(h, k - 1)
  }

  /** The mark at m still stands after k steps: only list refreshes, and what the app forgot, came after it. */
  ghost predicate Standing(h: seq<LocalEvent>, m: Option<nat>, k: nat)
    requires k <= |h|
  {
    m.Some? && forall i | m.value < i < k :: h[i].Listed? || h[i].Forgotten?
  }

  function MarkOf(entry: Option<Entry>): Option<(int, Transition)> {
    if entry.Some? && entry.value.switching then Some((entry.value.switchingAt, entry.value.transition)) else None
  }

  /** A mark is made by a switch that finds its session, and survives list refreshes and nothing else of the SDK. */
  lemma MarkAfter(stored: Option<Entry>, e: LocalEvent)
    ensures MarkOf(LocalStep(stored, e).entry) ==
      if e.Listed? || e.Forgotten? then MarkOf(stored)
      else if e.SwitchMarked? && stored.Some? then Some((e.begin, if e.mode == ByDesktop then ToLocal else ToRemote))
      else None
  {
  }

  lemma {:induction false} FlagsTrackLastMark(h: seq<LocalEvent>, k: nat)
    requires Timed(h) && k <= |h|
    ensures var m := LastMark(h, k);
      MarkOf(StateAt(h, k).entry) ==
        if !Standing(h, m, k) then None
        else Some((h[m.value].begin, if h[m.value].mode == ByDesktop then ToLocal else ToRemote))
  {
    if k > 0 {
      FlagsTrackLastMark(h, k - 1);
      MarkAfter(StateAt(h, k - 1).entry, h[k - 1]);
    }
  }

  /**
   A step's UI record reports switching exactly when a mark stands and is at most 15 s old, and it
   then names that mark's target and keeps the last stable mode. So no record computed later than
   15 s after the last mark reports it.
   */
  lemma SwitchingShownExactly(h: seq<LocalEvent>, k: nat)
    requires Timed(h) && k < |h|
    ensures var ui, m := LocalStep(StateAt(h, k).entry, h[k]).ui, LastMark(h, k + 1);
      && (ui.Some? && ui.value.switching <==>
        && Standing(h, m, k)
        && !h[k].SwitchSucceeded? && !h[k].SwitchFailed? && !h[k].Forgotten?
        && h[k].now <= h[m.value].begin + 15_000)
      && (ui.Some? && ui.value.switching ==>
        var stable := StateAt(h, k).entry.value.state;
        && (ui.value.transition == ToLocal <==> h[m.value].mode == ByDesktop)
        && (ui.value.transition == ToRemote <==> h[m.value].mode == ByPhone)
        && (ui.value.online && stable != Unset ==>
          && (ui.value.mode == LocalMode <==> stable == Local)
          && (ui.value.mode == RemoteMode <==> stable == Remote)))
  {
    FlagsTrackLastMark(h, k);
    var e := h[k];
    match e
    case Listed(now, connected, row, _) =>
    case Activity(now, socket, active, working) =>
    case AgentStateChanged(now, socket, agentState) =>
    case SwitchMarked(begin, now, mode) =>
    case SwitchSucceeded(begin, now, mode) =>
    case SwitchFailed(now) =>
    case Forgotten(_) =>
  }

  // ----- Working hold -----

  ghost predicate WorkingAt(h: seq<LocalEvent>, k: nat)
    requires k <= |h|
  {
    StateAt(h, k).entry.Some? && StateAt(h, k).entry.value.working
  }

  predicate TrueReport(e: LocalEvent) {
    (e.Listed? && e.row.working) || (e.Activity? && e.active && e.working)
  }

  predicate FalseReport(e: LocalEvent) {
    (e.Listed? || e.Activity?) && !TrueReport(e)
  }

  /** Step i started a working spell that has lasted through step j - 1. */
  ghost predicate Spell(h: seq<LocalEvent>, i: nat, j: nat)
    requires j <= |h|
  {
    i < j && !WorkingAt(h, i) && forall k | i < k <= j :: WorkingAt(h, k)
  }

  ghost predicate Switched(h: seq<LocalEvent>, i: nat, j: nat)
    requires j <= |h|
  {
    exists k :: i < k < j && h[k].SwitchSucceeded?
  }

  function WorkingOf(entry: Option<Entry>): (bool, int) {
    if entry.Some? then (entry.value.working, entry.value.workingAt) else (false, 0)
  }

  /** All a step does to a session's working flag and to the time that flag was raised. */
  function NextWorking(before: (bool, int), e: LocalEvent): (bool, int) {
    if TrueReport(e) then (true, if before.0 then before.1 else e.now)
    else if FalseReport(e) then
      (before.0 && 0 < before.1 && e.now - before.1 <= SESSION_FSM_STALE_AFTER, before.1)
    else (before.0, if e.SwitchSucceeded? then 0 else before.1)
  }

  lemma WorkingAfter(stored: Option<Entry>, e: LocalEvent)
    ensures WorkingOf(LocalStep(stored, e).entry) == NextWorking(WorkingOf(stored), e)
  {
  }

  function WorkingRun(h: seq<LocalEvent>, k: nat): (bool, int)
    requires k <= |h|
  {
    if k == 0 then (false, 0) else NextWorking(WorkingRun(h, k - 1), h[k - 1])
  }

  lemma {:induction false} WorkingRunIs(h: seq<LocalEvent>, k: nat)
    requires k <= |h|
    ensures WorkingOf(StateAt(h, k).entry) == WorkingRun(h, k)
  {
    if k > 0 {
      WorkingRunIs(h, k - 1);
      WorkingAfter(StateAt(h, k - 1).entry, h[k - 1]);
    }
  }

  lemma {:induction false} SpellInRun(h: seq<LocalEvent>, i: nat, j: nat)
    requires Timed(h) && i < j <= |h|
    requires !WorkingRun(h, i).0 && forall k | i < k <= j :: WorkingRun(h, k).0
    ensures TrueReport(h[i])
    ensures WorkingRun(h, j) == (true, if Switched(h, i, j) then 0 else h[i].now)
  {
    assert WorkingRun(h, j).0;
    if j > i + 1 {
      SpellInRun(h, i, j - 1);
      assert Switched(h, i, j) <==> Switched(h, i, j - 1) || h[j - 1].SwitchSucceeded?;
    }
  }

  lemma SpellBeginsWithReport(h: seq<LocalEvent>, i: nat, j: nat)
    requires Timed(h) && j <= |h| && Spell(h, i, j)
    ensures TrueReport(h[i])
    ensures WorkingOf(StateAt(h, j).entry) == (true, if Switched(h, i, j) then 0 else h[i].now)
  {
    forall k: nat | k <= j
      ensures WorkingAt(h, k) <==> WorkingRun(h, k).0
    {
      WorkingRunIs(h, k);
    }
    SpellInRun(h, i, j);
    WorkingRunIs(h, j);
  }

  /**
   A false report leaves the session working exactly when the spell's first report is at most 2 s
   old and no control switch has succeeded since; nothing else ends a spell. The bound counts from
   the first report, so later reports never extend it.
   */
  lemma HoldExactly(h: seq<LocalEvent>, i: nat, j: nat)
    requires Timed(h) && j < |h| && Spell(h, i, j)
    ensures FalseReport(h[j]) ==>
      (WorkingAt(h, j + 1) <==> !Switched(h, i, j) && h[j].now - h[i].now <= 2_000)
    ensures !FalseReport(h[j]) ==> WorkingAt(h, j + 1)
  {
    SpellBeginsWithReport(h, i, j);
    WorkingAfter(StateAt(h, j).entry, h[j]);
  }

  // ----- How old a snapshot is -----

  /** The step gives the snapshot a new time: a mark only if its record is new. */
  predicate Renews(h: seq<LocalEvent>, i: nat)
    requires i < |h|
  {
    !h[i].SwitchFailed? && !h[i].Forgotten?
    && (h[i].SwitchMarked? ==> LocalStep(StateAt(h, i).entry, h[i]).published)
  }

  function FetchedOf(entry: Option<Entry>): (int, int) {
    if entry.Some? then (entry.value.fetchedAt, entry.value.updatedAt) else (0, 0)
  }

  lemma FetchedAfter(stored: Option<Entry>, e: LocalEvent)
    ensures var out := LocalStep(stored, e);
      FetchedOf(out.entry) == (
        if e.SwitchFailed? || e.Forgotten? || (e.SwitchMarked? && !out.published) then FetchedOf(stored).0
        else if e.SwitchSucceeded? then e.begin
        else e.now,
        if e.Listed? then e.row.updatedAt else FetchedOf(stored).1)
  {
    match e
    case Listed(_, _, _, _) =>
    case Activity(_, _, _, _) =>
    case AgentStateChanged(_, _, _) =>
    case SwitchMarked(_, _, _) =>
    case SwitchSucceeded(_, _, _) =>
    case SwitchFailed(_) =>
    case Forgotten(_) =>
  }

  /**
   A snapshot is recent exactly when the last step that renewed it is at most 2 s old: any list,
   ephemeral, agent update or acknowledged switch, or a mark whose record was new.
   */
  lemma RecentExactly(h: seq<LocalEvent>, i: nat, k: nat, now: int)
    requires Timed(h) && i < k <= |h| && Renews(h, i) && forall j | i < j < k :: !Renews(h, j)
    ensures StateAt(h, k).entry.Some?
    ensures var fetchedAt := StateAt(h, k).entry.value.fetchedAt;
      && fetchedAt == (if h[i].SwitchSucceeded? then h[i].begin else h[i].now)
      && (fetchedAt != 0 && now - fetchedAt <= 2_000 <==>
        now <= (if h[i].SwitchSucceeded? then h[i].begin else h[i].now) + 2_000)
  {
    FetchedSince(h, i, k);
    assert 0 < h[i].Begin() <= h[i].now;
  }

  lemma RenewsOrKeeps(h: seq<LocalEvent>, k: nat, next: nat)
    requires k < |h| && next == k + 1
    ensures FetchedOf(StateAt(h, next).entry).0 ==
      if !Renews(h, k) then FetchedOf(StateAt(h, k).entry).0
      else if h[k].SwitchSucceeded? then h[k].begin
      else h[k].now
  {
    FetchedAfter(StateAt(h, k).entry, h[k]);
  }

  lemma {:induction false} FetchedSince(h: seq<LocalEvent>, i: nat, k: nat)
    requires i < k <= |h| && Renews(h, i) && forall j | i < j < k :: !Renews(h, j)
    ensures FetchedOf(StateAt(h, k).entry).0 == if h[i].SwitchSucceeded? then h[i].begin else h[i].now
  {
    RenewsOrKeeps(h, k - 1, k);
    if k > i + 1 {
      FetchedSince(h, i, k - 1);
    }
  }

  /** A session's update time is that of its row in the latest list that had it. */
  lemma {:induction false} UpdatedAsListed(h: seq<LocalEvent>, i: nat, k: nat)
    requires i < k <= |h| && h[i].Listed? && forall j | i < j < k :: !h[j].Listed?
    ensures FetchedOf(StateAt(h, k).entry).1 == h[i].row.updatedAt
  {
    FetchedAfter(StateAt(h, k - 1).entry, h[k - 1]);
    if k > i + 1 {
      UpdatedAsListed(h, i, k - 1);
    }
  }

  // ----- The whole cache -----

  function EventBegin(e: Event): int {
    match e
    case Refreshed(now, _, _, _) => now
    case Session(_, step) => step.Begin()
    case Removed(now, _) => now
  }

  function EventNow(e: Event): int {
    match e
    case Refreshed(now, _, _, _) => now
    case Session(_, step) => step.now
    case Removed(now, _) => now
  }

  ghost predicate TimedRun(es: seq<Event>) {
    && (forall i | 0 <= i < |es| :: 0 < EventBegin(es[i]) <= EventNow(es[i]))
    && (forall i, j | 0 <= i < j < |es| :: EventNow(es[i]) <= EventBegin(es[j]))
  }

  lemma ShareIsTimed(e: Event, id: string)
    requires 0 < EventBegin(e) <= EventNow(e)
    ensures |Share(e, id)| <= 1
    ensures forall x <- Share(e, id) :: EventBegin(e) <= x.Begin() <= x.now <= EventNow(e)
  {
  }

  lemma TimedSnoc(h: seq<LocalEvent>, x: LocalEvent)
    requires Timed(h) && 0 < x.Begin() <= x.now && forall k | 0 <= k < |h| :: h[k].now <= x.Begin()
    ensures Timed(h + [x])
  {
  }

  lemma {:induction false} HistoryTimed(es: seq<Event>, id: string)
    requires TimedRun(es)
    ensures Timed(History(es, id))
    ensures forall k | 0 <= k < |History(es, id)| :: es != [] && History(es, id)[k].now <= EventNow(es[|es| - 1])
  {
    if es != [] {
      var init, e := es[..|es| - 1], es[|es| - 1];
      var before, share := History(init, id), Share(e, id);
      HistoryTimed(init, id);
      ShareIsTimed(e, id);
      assert init != [] ==> EventNow(init[|init| - 1]) <= EventBegin(e);
      assert 0 < EventBegin(e) <= EventNow(e);
      if share == [] {
        assert before + share == before;
      } else {
        assert share == [share[0]] && share[0] in share;
        TimedSnoc(before, share[0]);
      }
    }
  }

  /** So every law above about timed histories is a law about each session of every timed run. */
  lemma RunsHaveTimedHistories(es: seq<Event>, id: string)
    requires TimedRun(es)
    ensures Timed(History(es, id))
    ensures RunFrom(EmptyModel, es).Local(id) == StateAt(History(es, id), |History(es, id)|)
  {
    HistoryTimed(es, id);
    RunIsLocal(es, id);
  }

  /** Every reachable cache: entries and published records match one to one, and each pair is good. */
  lemma ReachableCacheGood(es: seq<Event>)
    requires TimedRun(es)
    ensures var m := RunFrom(EmptyModel, es);
      m.fsm.Keys == m.published.Keys && forall id <- m.fsm :: Good(m.Local(id))
  {
    var m := RunFrom(EmptyModel, es);
    forall id: string
      ensures Good(m.Local(id))
    {
      RunsHaveTimedHistories(es, id);
      EveryStateGood(History(es, id), |History(es, id)|);
    }
    assert forall id :: id in m.fsm <==> m.Local(id).entry.Some?;
    assert forall id :: id in m.published <==> m.Local(id).published.Some?;
  }
}
