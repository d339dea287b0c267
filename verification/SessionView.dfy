/**
 What the phone makes of a published UI record (ios/DelightApp/BridgeModels.swift and
 TerminalUI.swift), next to the gates that the SDK applies to its own snapshot.
 */
module SessionView {
  import opened Common
  import opened SessionFsm

  predicate CanSend(ui: SessionUI) {
    ui.connected && ui.online && !ui.switching && ui.mode == RemoteMode
  }

  predicate CanTakeControl(ui: SessionUI) {
    ui.connected && ui.online && !ui.switching && ui.mode == LocalMode
  }

  function ViewState(ui: SessionUI): ControlState {
    if !ui.connected then Disconnected
    else if !ui.online then Offline
    else if ui.mode == LocalMode then Local
    else if ui.mode == RemoteMode then Remote
    else Offline
  }

  datatype ComposerState = ComposerState(isInputEnabled: bool, canControlSession: bool, isShowingStop: bool)

  /** TerminalComposerState.make, called as the detail view calls it. */
  function MakeComposer(ui: Option<SessionUI>): ComposerState {
    var controlledByDesktop := ui.None? || ui.value.mode != RemoteMode;
    var canSendFromPhone := ui.Some? && CanSend(ui.value) && !controlledByDesktop;
    var isTurnInFlight := ui.Some? && ui.value.working;
    ComposerState(canSendFromPhone && !isTurnInFlight, canSendFromPhone, canSendFromPhone && isTurnInFlight)
  }

  /** sendMessageWithLocalID accepts a snapshot that is remote and has no turn in flight. */
  predicate SendGateAccepts(fsm: Entry) {
    fsm.state == Remote && !fsm.working
  }

  /** callRPC lets the phone take control of a local session, or of one it already controls. */
  predicate TakeControlGateAccepts(fsm: Entry) {
    fsm.state == Remote || fsm.state == Local
  }

  /** The phone's reading of a UI record against the snapshot behind it. */
  ghost predicate ViewAgrees(fsm: Entry, ui: SessionUI) {
    && (!ui.switching && fsm.state != Unset ==> ViewState(ui) == fsm.state)
    && (MakeComposer(Some(ui)).isInputEnabled <==> !ui.switching && SendGateAccepts(fsm))
    && (MakeComposer(Some(ui)).isShowingStop <==> !ui.switching && fsm.state == Remote && fsm.working)
    && (MakeComposer(Some(ui)).canControlSession <==> !ui.switching && fsm.state == Remote)
    && (CanTakeControl(ui) <==> !ui.switching && fsm.state == Local)
    && (CanTakeControl(ui) ==> TakeControlGateAccepts(fsm))
  }

  lemma DerivedViewAgrees(
    now: int, connected: bool, active: bool, working: bool, agentState: Option<bool>, cached: Option<Entry>)
    ensures var (fsm, ui) := DeriveSessionUI(now, connected, active, working, agentState, cached);
      ViewAgrees(fsm, ui) && (!ui.switching ==> ViewState(ui) == fsm.state)
  {
  }

  /** Without a record the composer offers nothing. */
  lemma NoRecordEnablesNothing()
    ensures var composer := MakeComposer(None);
      !composer.isInputEnabled && !composer.canControlSession && !composer.isShowingStop
  {
  }
}
