/**
 The derived per-session control state (cli/sdk/session_fsm.go).

 The Go strings are datatypes here: "" is Unset / NoMode / NoTransition. The agentState JSON
 is its decoded controlledByUser flag, None when it does not decode, and the UI map that Go
 encodes to a stable JSON string is the record itself.
 */
module SessionFsm {
  import opened Common

  const SESSION_FSM_STALE_AFTER := 2_000
  const SESSION_SWITCHING_TTL := 15_000

  datatype ControlState = Unset | Disconnected | Offline | Local | Remote
  datatype Mode = NoMode | LocalMode | RemoteMode
  datatype Transition = NoTransition | ToLocal | ToRemote

  datatype SessionUI = SessionUI(
    connected: bool, online: bool, working: bool, mode: Mode, switching: bool, transition: Transition)

  datatype Entry = Entry(
    state: ControlState, online: bool, working: bool, workingAt: int, controlledByUser: bool,
    connected: bool, switching: bool, transition: Transition, switchingAt: int,
    uiJSON: Option<SessionUI>, updatedAt: int, fetchedAt: int)
  {
    /** What a Go map returns for a missing key. */
    static const Zero := Entry(Unset, false, false, 0, false, false, false, NoTransition, 0, None, 0, 0)

    function Cleared(): Entry {
      this.(switching := false, transition := NoTransition, switchingAt := 0)
    }
  }

  function ComputeSessionFSM(connected: bool, active: bool, controlledByUser: bool): Entry {
    if !connected then Entry.Zero.(state := Disconnected, online := active, controlledByUser := controlledByUser)
    else if !active then Entry.Zero.(state := Offline, connected := true, controlledByUser := controlledByUser)
    else if controlledByUser then
      Entry.Zero.(state := Local, connected := true, online := true, controlledByUser := true)
    else Entry.Zero.(state := Remote, connected := true, online := true)
  }

  function ModeFromState(state: ControlState): Mode {
    match state
    case Local => LocalMode
    case Remote => RemoteMode
    case _ => NoMode
  }

  /** The working flag and its start time after one report. */
  function DeriveWorking(now: int, working: bool, cached: Option<Entry>): (bool, int) {
    var workingAt := if cached.Some? then cached.value.workingAt else 0;
    if working then
      (true, if cached.None? || !cached.value.working then now else workingAt)
    else if cached.Some? && cached.value.working then
      (workingAt > 0 && now - workingAt <= SESSION_FSM_STALE_AFTER, workingAt)
    else
      (false, workingAt)
  }

  predicate SwitchingShown(now: int, cached: Option<Entry>) {
    && cached.Some?
    && cached.value.switching
    && (cached.value.switchingAt <= 0 || now - cached.value.switchingAt <= SESSION_SWITCHING_TTL)
  }

  function DeriveSessionUI(
    now: int, connected: bool, active: bool, working: bool, agentState: Option<bool>, cached: Option<Entry>
  ): (Entry, SessionUI) {
    var controlledByUser := agentState.GetOr(if cached.Some? then cached.value.controlledByUser else true);
    var (stillWorking, workingAt) := DeriveWorking(now, working, cached);
    var base := ComputeSessionFSM(connected, active, controlledByUser)
      .(fetchedAt := now, working := stillWorking, workingAt := workingAt);
    var fsm := if cached.None? then base else base.(
      updatedAt := cached.value.updatedAt,
      switching := cached.value.switching,
      transition := cached.value.transition,
      switchingAt := cached.value.switchingAt);
    var switching := SwitchingShown(now, cached);
    var mode :=
      if !fsm.online then NoMode
      else if switching && cached.value.state != Unset then ModeFromState(cached.value.state)
      else ModeFromState(fsm.state);
    (fsm, SessionUI(fsm.connected, fsm.online, stillWorking, mode, switching,
      if switching then cached.value.transition else NoTransition))
  }
}
