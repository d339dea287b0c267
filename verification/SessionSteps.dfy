/**
 The steps that rewrite the session cache (cli/sdk/sdk.go, cli/sdk/session_ui_updates.go), as
 functions of one session's cached entry, and their lifting to the whole cache.

 Every step runs on the SDK dispatch queue, so one step is atomic. A step that reads the clock
 twice carries both readings.
 */
module SessionSteps {
  import opened Common
  import opened SessionFsm

  datatype ControlMode = ByDesktop | ByPhone   // "local" | "remote"

  datatype ListedSession = ListedSession(
    id: string, active: bool, working: bool, agentState: Option<bool>, updatedAt: int)

  /**
   One step as a single session sees it. `socket` is None when there is no user socket. A list
   refresh that the SDK runs for itself drops its reply, so it is not `delivered` to the app. The app
   forgets a session that a delivered list omits, and those it removes itself; the SDK does not.
   */
  datatype LocalEvent =
    | Listed(now: int, connected: bool, row: ListedSession, delivered: bool)
    | Activity(now: int, socket: Option<bool>, active: bool, working: bool)
    | AgentStateChanged(now: int, socket: Option<bool>, agentState: Option<bool>)
    | SwitchMarked(begin: int, now: int, mode: ControlMode)
    | SwitchSucceeded(begin: int, now: int, mode: ControlMode)
    | SwitchFailed(now: int)
    | Forgotten(now: int)
  {
    /** The first clock reading of the step; `now` is the last. */
    function Begin(): int {
      if SwitchMarked? || SwitchSucceeded? then begin else now
    }
  }

  /** The new entry, the UI record computed, and whether that record was injected or sent. */
  datatype Outcome = Outcome(entry: Option<Entry>, ui: Option<SessionUI>, published: bool)

  function TransitionTo(mode: ControlMode): Transition {
    if mode == ByDesktop then ToLocal else ToRemote
  }

  function ListedStep(prev: Option<Entry>, now: int, connected: bool, row: ListedSession): Outcome {
    var (fsm, ui) := DeriveSessionUI(now, connected, row.active, row.working, row.agentState, prev);
    Outcome(Some(fsm.(updatedAt := row.updatedAt, uiJSON := Some(ui))), Some(ui), true)
  }

  function ActivityStep(stored: Option<Entry>, now: int, socket: Option<bool>, active: bool, working: bool): Outcome {
    var found := stored.GetOr(Entry.Zero);
    var connected := socket.GetOr(found.connected);
    var prev := if found.state == Unset && connected then found.(connected := true) else found;
    var (fsm, ui) := DeriveSessionUI(now, connected, active, active && working, None, Some(prev));
    Outcome(Some(fsm.Cleared().(updatedAt := prev.updatedAt, uiJSON := Some(ui))), Some(ui), prev.uiJSON != Some(ui))
  }

  function AgentStateStep(stored: Option<Entry>, now: int, socket: Option<bool>, agentState: Option<bool>): Outcome {
    var prev := stored.GetOr(Entry.Zero);
    var connected := prev.state == Unset || socket.GetOr(prev.connected);
    var active := prev.state == Unset || prev.online;
    var (fsm, ui) := DeriveSessionUI(now, connected, active, prev.working, agentState, Some(prev));
    Outcome(Some(fsm.Cleared().(updatedAt := prev.updatedAt, uiJSON := Some(ui))), Some(ui), prev.uiJSON != Some(ui))
  }

  /** The mark is made only for a session that ensureSessionFSM found. */
  function MarkStep(stored: Option<Entry>, begin: int, now: int, mode: ControlMode): Outcome {
    if stored.None? then Outcome(None, None, false)
    else
      var prev := stored.value.(switching := true, transition := TransitionTo(mode), switchingAt := begin);
      var (fsm, ui) := DeriveSessionUI(now, prev.connected, prev.online, prev.working, None, Some(prev));
      if prev.uiJSON != Some(ui) then Outcome(Some(fsm.(uiJSON := Some(ui))), Some(ui), true)
      else Outcome(Some(prev), Some(ui), false)
  }

  function SuccessStep(stored: Option<Entry>, begin: int, now: int, mode: ControlMode): Outcome {
    var prev := stored.GetOr(Entry.Zero);
    var active := prev.state == Unset || prev.online;
    var connected := prev.state == Unset || prev.connected;
    var next := ComputeSessionFSM(connected, active, mode == ByDesktop)
      .(updatedAt := prev.updatedAt, fetchedAt := begin, working := prev.working);
    var (_, ui) := DeriveSessionUI(now, connected, active, next.working, None, Some(next));
    Outcome(Some(next.(uiJSON := Some(ui))), Some(ui), true)
  }

  function FailureStep(stored: Option<Entry>, now: int): Outcome {
    var prev := stored.GetOr(Entry.Zero).Cleared();
    var (_, ui) := DeriveSessionUI(now, prev.connected, prev.online, prev.working, None, Some(prev));
    Outcome(Some(prev.(uiJSON := Some(ui))), Some(ui), true)
  }

  function LocalStep(stored: Option<Entry>, e: LocalEvent): Outcome {
    match e
    case Listed(now, connected, row, _) => ListedStep(stored, now, connected, row)
    case Activity(now, socket, active, working) => ActivityStep(stored, now, socket, active, working)
    case AgentStateChanged(now, socket, agentState) => AgentStateStep(stored, now, socket, agentState)
    case SwitchMarked(begin, now, mode) => MarkStep(stored, begin, now, mode)
    case SwitchSucceeded(begin, now, mode) => SuccessStep(stored, begin, now, mode)
    case SwitchFailed(now) => FailureStep(stored, now)
    case Forgotten(_) => Outcome(stored, None, false)
  }

  /** A session's cached entry, and the UI record last injected or sent for it. */
  datatype LocalState = LocalState(entry: Option<Entry>, published: Option<SessionUI>) {
    function Take(out: Outcome): LocalState {
      LocalState(out.entry, if out.published then out.ui else published)
    }

    function After(e: LocalEvent): LocalState {
      Take(LocalStep(entry, e))
    }
  }

  /** The state of one session after the first k steps of its history. */
  function StateAt(history: seq<LocalEvent>, k: nat): LocalState
    requires k <= |history|
  {
    if k == 0 then LocalState(None, None) else StateAt(history, k - 1).After(history[k - 1])
  }

  lemma {:induction false} StateAtPrefix(a: seq<LocalEvent>, b: seq<LocalEvent>, k: nat)
    requires k <= |a|
    ensures StateAt(a + b, k) == StateAt(a, k)
  {
    if k > 0 {
      StateAtPrefix(a, b, k - 1);
    }
  }

  // ----- The whole cache -----

  /** Any step but a list refresh, which lists many sessions and makes the app forget others. */
  type SessionStep = e: LocalEvent | !e.Listed? && !e.Forgotten? witness SwitchFailed(0)

  /** A list refresh touches every listed session; any other step of the SDK touches one. */
  datatype Event =
    | Refreshed(now: int, connected: bool, rows: seq<ListedSession>, delivered: bool)
    | Session(id: string, step: SessionStep)
    | Removed(now: int, ids: set<string>)   // by the app, from its own list

  datatype Model = Model(fsm: map<string, Entry>, published: map<string, SessionUI>) {
    function Local(id: string): LocalState {
      LocalState(Lookup(fsm, id), Lookup(published, id))
    }

    function Store(id: string, out: Outcome): Model {
      Model(
        if out.entry.Some? then fsm[id := out.entry.value] else fsm,
        if out.published && out.ui.Some? then published[id := out.ui.value] else published)
    }
  }

  const EmptyModel := Model(map[], map[])

  /** listSessions derives every row from the cache as it was when the loop began. */
  function RefreshRows(m: Model, now: int, connected: bool, rows: seq<ListedSession>): Model {
    if rows == [] then m
    else
      var row := rows[|rows| - 1];
      var before := RefreshRows(m, now, connected, rows[..|rows| - 1]);
      if row.id == "" then before
      else before.Store(row.id, ListedStep(Lookup(m.fsm, row.id), now, connected, row))
  }

  /** A session and its UI record, as an enriched list reply has them and the app keeps them. */
  datatype Summary = Summary(id: string, ui: SessionUI)

  /** The reply of a list refresh, with the UI record injected into each row. */
  function Enriched(m: Model, now: int, connected: bool, rows: seq<ListedSession>): seq<Summary> {
    if rows == [] then []
    else
      var row := rows[|rows| - 1];
      Enriched(m, now, connected, rows[..|rows| - 1])
        + [Summary(row.id, ListedStep(Lookup(m.fsm, row.id), now, connected, row).ui.value)]
  }

  function Step(m: Model, e: Event): Model {
    match e
    case Refreshed(now, connected, rows, _) => RefreshRows(m, now, connected, rows)
    case Session(id, step) => m.Store(id, LocalStep(Lookup(m.fsm, id), step))
    case Removed(_, _) => m
  }

  function RunFrom(m: Model, es: seq<Event>): Model {
    if es == [] then m else Step(RunFrom(m, es[..|es| - 1]), es[|es| - 1])
  }

  /** The session-ui updates that an event sends; a list refresh sends none. */
  function Updates(m: Model, e: Event): seq<(string, SessionUI)> {
    if !e.Session? then []
    else
      var out := LocalStep(Lookup(m.fsm, e.id), e.step);
      if out.published && out.ui.Some? then [(e.id, out.ui.value)] else []
  }

  // ----- One session's share of a run -----

  function LastRow(rows: seq<ListedSession>, id: string): Option<ListedSession> {
    if rows == [] then None
    else if rows[|rows| - 1].id == id then Some(rows[|rows| - 1])
    else LastRow(rows[..|rows| - 1], id)
  }

  function Share(e: Event, id: string): seq<LocalEvent> {
    match e
    case Refreshed(now, connected, rows, delivered) =>
      var row := LastRow(rows, id);
      if row.Some? && id != "" then [Listed(now, connected, row.value, delivered)]
      else if delivered then [Forgotten(now)]
      else []
    case Session(sid, step) => if sid == id then [step] else []
    case Removed(now, ids) => if id in ids then [Forgotten(now)] else []
  }

  function History(es: seq<Event>, id: string): seq<LocalEvent> {
    if es == [] then [] else History(es[..|es| - 1], id) + Share(es[|es| - 1], id)
  }

  lemma {:induction false} RefreshActsLocally(
    m: Model, now: int, connected: bool, rows: seq<ListedSession>, id: string)
    ensures var row := LastRow(rows, id);
      RefreshRows(m, now, connected, rows).Local(id)
        == if row.Some? && id != "" then m.Local(id).Take(ListedStep(Lookup(m.fsm, id), now, connected, row.value))
        else m.Local(id)
  {
    if rows != [] {
      RefreshActsLocally(m, now, connected, rows[..|rows| - 1], id);
    }
  }

  lemma StepActsLocally(m: Model, e: Event, id: string)
    ensures |Share(e, id)| <= 1
    ensures Share(e, id) == [] ==> Step(m, e).Local(id) == m.Local(id)
    ensures Share(e, id) != [] ==> Step(m, e).Local(id) == m.Local(id).After(Share(e, id)[0])
  {
    match e
    case Refreshed(now, connected, rows, _) => RefreshActsLocally(m, now, connected, rows, id);
    case Session(sid, step) =>
    case Removed(_, _) =>
  }

  /** A run of the cache is, session by session, the run of that session's own history. */
  lemma {:induction false} RunIsLocal(es: seq<Event>, id: string)
    ensures RunFrom(EmptyModel, es).Local(id) == StateAt(History(es, id), |History(es, id)|)
  {
    if es != [] {
      var init, e := es[..|es| - 1], es[|es| - 1];
      var before, share := History(init, id), Share(e, id);
      RunIsLocal(init, id);
      StepActsLocally(RunFrom(EmptyModel, init), e, id);
      assert share == [] ==> before + share == before;
      StateAtPrefix(before, share, |before|);
    }
  }
}
