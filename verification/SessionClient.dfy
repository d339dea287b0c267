/**
 The SDK client's session cache as Go keeps it: methods that read and rewrite the sessionFSM map
 and emit updates, each proved to be a step (or a run of steps) of the model in SessionSteps.
 */
module SessionClient {
  import opened Common
  import opened SessionFsm
  import opened SessionSteps
  import opened SessionView
  import opened SessionCalls

  lemma InOrder<T>(a: seq<T>, b: seq<T>, c: seq<T>)
    ensures a + b + c == a + (b + c)
  {
  }

  class Client {
    var sessionFSM: map<string, Entry>
    /** Session-ui updates handed to the listener, oldest first. */
    var updates: seq<(string, SessionUI)>
    /** The record last injected or sent for each session. */
    ghost var published: map<string, SessionUI>

    ghost function Snapshot(): Model
      reads this
    {
      Model(sessionFSM, published)
    }

    constructor ()
      ensures Snapshot() == EmptyModel && updates == []
    {
      sessionFSM, updates, published := map[], [], map[];
    }

    method EmitSessionUI(id: string, ui: SessionUI)
      modifies this`updates, this`published
      ensures updates == old(updates) + [(id, ui)]
      ensures published == old(published)[id := ui]
    {
      updates := updates + [(id, ui)];
      published := published[id := ui];
    }

    /** One row of a session list: derive its record from the snapshot, and cache it under its id. */
    method EnrichRow(cached: Option<Entry>, now: int, connected: bool, row: ListedSession) returns (ui: SessionUI)
      modifies this`sessionFSM, this`published
      ensures Some(ui) == ListedStep(cached, now, connected, row).ui
      ensures Snapshot() ==
        if row.id == "" then old(Snapshot()) else old(Snapshot()).Store(row.id, ListedStep(cached, now, connected, row))
    {
      var (fsm, derived) := DeriveSessionUI(now, connected, row.active, row.working, row.agentState, cached);
      fsm, ui := fsm.(updatedAt := row.updatedAt), derived;
      if row.id != "" {
        sessionFSM := sessionFSM[row.id := fsm.(uiJSON := Some(ui))];
        published := published[row.id := ui];
      }
    }

    /**
     The reply's rows gain their UI records; a row without an id is enriched but not cached. Whether
     the caller hands the reply to the app makes no difference here.
     */
    method ListSessions(reply: ListReply) returns (enriched: seq<Summary>)
      modifies this`sessionFSM, this`published
      ensures Snapshot() == RefreshRows(old(Snapshot()), reply.now, reply.connected, reply.rows)
      ensures enriched == Enriched(old(Snapshot()), reply.now, reply.connected, reply.rows)
    {
      var cachedFSM := sessionFSM;
      enriched := [];
      for i := 0 to |reply.rows|
        invariant Snapshot() == RefreshRows(old(Snapshot()), reply.now, reply.connected, reply.rows[..i])
        invariant enriched == Enriched(old(Snapshot()), reply.now, reply.connected, reply.rows[..i])
      {
        var row := reply.rows[i];
        var ui := EnrichRow(Lookup(cachedFSM, row.id), reply.now, reply.connected, row);
        enriched := enriched + [Summary(row.id, ui)];
        assert reply.rows[..i + 1][..i] == reply.rows[..i];
      }
      assert reply.rows[..|reply.rows|] == reply.rows;
    }

    /** The tail both report handlers share: clear the mark, store, and emit if the record changed. */
    method StoreReport(id: string, prev: Entry, derived: Entry, ui: SessionUI, ghost out: Outcome)
      requires out ==
        Outcome(
          Some(derived.Cleared().(updatedAt := prev.updatedAt, uiJSON := Some(ui))), Some(ui), prev.uiJSON != Some(ui))
      modifies this
      ensures Snapshot() == old(Snapshot()).Store(id, out)
      ensures updates == old(updates) + if out.published then [(id, ui)] else []
    {
      var fsm := derived.(updatedAt := prev.updatedAt, switching := false, transition := NoTransition,
                          switchingAt := 0, uiJSON := Some(ui));
      sessionFSM := sessionFSM[id := fsm];
      if prev.uiJSON != fsm.uiJSON {
        EmitSessionUI(id, ui);
      }
    }

    method ApplyEphemeralActivity(id: string, now: int, socket: Option<bool>, active: bool, working: bool)
      modifies this
      ensures id == "" ==> Snapshot() == old(Snapshot()) && updates == old(updates)
      ensures id != "" ==>
        var out := ActivityStep(Lookup(old(sessionFSM), id), now, socket, active, working);
        && Snapshot() == old(Snapshot()).Store(id, out)
        && updates == old(updates) + if out.published then [(id, out.ui.value)] else []
    {
      if id == "" {
        return;
      }
      var found := if id in sessionFSM then sessionFSM[id] else Entry.Zero;
      var connected := if socket.Some? then socket.value else found.connected;
      var prev := if found.state == Unset && connected then found.(connected := true) else found;
      var (fsm, ui) := DeriveSessionUI(now, connected, active, active && working, None, Some(prev));
      ghost var out := ActivityStep(Lookup(sessionFSM, id), now, socket, active, working);
      assert out.ui == Some(ui);
      StoreReport(id, prev, fsm, ui, out);
    }

    method ApplyAgentState(id: string, now: int, socket: Option<bool>, agentState: Option<bool>)
      modifies this
      ensures var out := AgentStateStep(Lookup(old(sessionFSM), id), now, socket, agentState);
        && Snapshot() == old(Snapshot()).Store(id, out)
        && updates == old(updates) + if out.published then [(id, out.ui.value)] else []
    {
      var prev := if id in sessionFSM then sessionFSM[id] else Entry.Zero;
      var connected := if socket.Some? then socket.value else prev.connected;
      var active := prev.online;
      if prev.state == Unset {
        active, connected := true, true;
      }
      var (fsm, ui) := DeriveSessionUI(now, connected, active, prev.working, agentState, Some(prev));
      ghost var out := AgentStateStep(Lookup(sessionFSM, id), now, socket, agentState);
      assert out.ui == Some(ui);
      StoreReport(id, prev, fsm, ui, out);
    }

    method ClearSessionSwitching(id: string, now: int)
      modifies this
      ensures id == "" ==> Snapshot() == old(Snapshot()) && updates == old(updates)
      ensures id != "" ==>
        && Snapshot() == Step(old(Snapshot()), Session(id, SwitchFailed(now)))
        && updates == old(updates) + Updates(old(Snapshot()), Session(id, SwitchFailed(now)))
    {
      if id == "" {
        return;
      }
      var prev := if id in sessionFSM then sessionFSM[id] else Entry.Zero;
      prev := prev.Cleared();
      var (_, ui) := DeriveSessionUI(now, prev.connected, prev.online, prev.working, None, Some(prev));
      sessionFSM := sessionFSM[id := prev.(uiJSON := Some(ui))];
      EmitSessionUI(id, ui);
    }

    /** The reply is None when the refresh that a stale or missing snapshot calls for fails. */
    method EnsureSessionFSM(id: string, now: int, reply: Option<ListReply>) returns (state: Option<Entry>, failed: bool)
      modifies this`sessionFSM, this`published
      ensures Snapshot() == Ensured(old(Snapshot()), id, now, reply)
      ensures failed <==> EnsureFails(old(Snapshot()), id, now, reply)
      ensures state == if failed then None else Lookup(sessionFSM, id)
    {
      state, failed := Lookup(sessionFSM, id), false;
      if state.None? || state.value.fetchedAt == 0 || now - state.value.fetchedAt > SESSION_FSM_STALE_AFTER {
        if reply.None? {
          return None, true;
        }
        var _ := ListSessions(reply.value);
        state := Lookup(sessionFSM, id);
      }
    }

    method MarkSwitching(id: string, begin: int, now: int, mode: ControlMode)
      requires id in sessionFSM
      modifies this
      ensures Snapshot() == Step(old(Snapshot()), Session(id, SwitchMarked(begin, now, mode)))
      ensures updates == old(updates) + Updates(old(Snapshot()), Session(id, SwitchMarked(begin, now, mode)))
    {
      var prev := sessionFSM[id].(switching := true, transition := TransitionTo(mode), switchingAt := begin);
      sessionFSM := sessionFSM[id := prev];
      var (fsm, ui) := DeriveSessionUI(now, prev.connected, prev.online, prev.working, None, Some(prev));
      if sessionFSM[id].uiJSON != Some(ui) {
        sessionFSM := sessionFSM[id := fsm.(uiJSON := Some(ui))];
        EmitSessionUI(id, ui);
      }
    }

    method RecordSwitch(id: string, begin: int, now: int, mode: ControlMode)
      modifies this
      ensures Snapshot() == Step(old(Snapshot()), Session(id, SwitchSucceeded(begin, now, mode)))
      ensures updates == old(updates) + Updates(old(Snapshot()), Session(id, SwitchSucceeded(begin, now, mode)))
    {
      var prev := if id in sessionFSM then sessionFSM[id] else Entry.Zero;
      var active, connected := prev.online, prev.connected;
      if prev.state == Unset {
        active, connected := true, true;
      }
      var next := ComputeSessionFSM(connected, active, mode == ByDesktop);
      next := next.(updatedAt := prev.updatedAt, fetchedAt := begin, working := prev.working,
                    switching := false, transition := NoTransition, switchingAt := 0);
      var (_, ui) := DeriveSessionUI(now, connected, active, next.working, None, Some(next));
      sessionFSM := sessionFSM[id := next.(uiJSON := Some(ui))];
      EmitSessionUI(id, ui);
    }

    /** callRPC before the RPC: mark the session if it is found, then check a take-control request. */
    method PrepareSwitch(c: SwitchCall) returns (verdict: SwitchVerdict)
      requires c.mode.Some?
      modifies this
      ensures var result := c.PreparedResult(old(Snapshot()));
        && verdict == result.verdict && Snapshot() == result.after && updates == old(updates) + result.sent
    {
      var state, failed := EnsureSessionFSM(c.id, c.clock(0), c.reply1);
      if state.Some? {
        MarkSwitching(c.id, c.clock(1), c.clock(2), c.mode.value);
      }
      assert Snapshot() == c.Marked(old(Snapshot()));
      verdict := Done;
      if c.mode == Some(ByPhone) {
        state, failed := EnsureSessionFSM(c.id, c.clock(3), c.reply2);
        if failed {
          verdict := RefreshFailed;
        } else if state.Some? && state.value.state != Remote && state.value.state != Local {
          verdict := Refused;
        }
      }
    }

    /** callRPC after the RPC: a failed call clears the mark, an acknowledged switch is recorded. */
    method CompleteSwitch(c: SwitchCall) returns (verdict: SwitchVerdict)
      modifies this
      ensures var result := c.EndedResult(old(Snapshot()));
        && verdict == result.verdict && Snapshot() == result.after && updates == old(updates) + result.sent
    {
      verdict := Done;
      if c.Ending() != [] {
        assert c.Ending() == [c.Ending()[0]];
        RunFromOne(Snapshot(), c.Ending()[0]);
      }
      if !c.ack.Accepted? {
        verdict := RpcFailed;
        ClearSessionSwitching(c.id, c.clock(4));
      } else if c.ack.mode.Some? {
        RecordSwitch(c.id, c.clock(4), c.clock(5), c.ack.mode.value);
      }
    }

    /**
     callRPC for a ":switch" method: its verdict, its effect on the cache and its updates are those of
     the call, and so by ResultIsOfTrace those of its trace. A refusal to take control, or a failed
     refresh, comes back before the RPC.
     */
    method CallSwitch(c: SwitchCall) returns (verdict: SwitchVerdict)
      modifies this
      ensures var result := c.Result(old(Snapshot()));
        && verdict == result.verdict && Snapshot() == result.after && updates == old(updates) + result.sent
    {
      ghost var m, sent := Snapshot(), updates;
      if c.mode.None? {
        verdict := CompleteSwitch(c);
        return;
      }
      verdict := PrepareSwitch(c);
      if verdict != Done {
        return;
      }
      ghost var prepared := Snapshot();
      verdict := CompleteSwitch(c);
      InOrder(sent, c.PreparedResult(m).sent, c.EndedResult(prepared).sent);
    }

    /** The gate in sendMessageWithLocalID, on the snapshot that ensureSessionFSM leaves. */
    method GateSend(id: string, now: int, reply: Option<ListReply>) returns (verdict: SendVerdict)
      modifies this`sessionFSM, this`published
      ensures Snapshot() == Ensured(old(Snapshot()), id, now, reply)
      ensures verdict == SendRefreshFailed <==> EnsureFails(old(Snapshot()), id, now, reply)
      ensures verdict == Send <==>
        !EnsureFails(old(Snapshot()), id, now, reply) && id in sessionFSM && SendGateAccepts(sessionFSM[id])
      ensures verdict == UnknownSession ==> id !in sessionFSM
      ensures verdict == WrongState ==> id in sessionFSM && sessionFSM[id].state != Remote
      ensures verdict == Busy ==> id in sessionFSM && sessionFSM[id].state == Remote && sessionFSM[id].working
    {
      var state, failed := EnsureSessionFSM(id, now, reply);
      verdict :=
        if failed then SendRefreshFailed
        else if state.None? then UnknownSession
        else if state.value.state != Remote then WrongState
        else if state.value.working then Busy
        else Send;
    }
  }
}
