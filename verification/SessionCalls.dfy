/**
 The two calls that consult the session cache before they act (cli/sdk/sdk.go): a control switch and
 a send. Each is a run of cache steps fixed by the call's inputs, with its verdict and its updates.
 */
module SessionCalls {
  import opened Common
  import opened SessionFsm
  import opened SessionSteps
  import opened SessionView
  import opened SessionRuns

  /** A decoded session list, with the clock and the socket state read when it arrived. */
  datatype ListReply = ListReply(now: int, connected: bool, rows: seq<ListedSession>)

  datatype Ack = Unacked | Rejected | Accepted(mode: Option<ControlMode>)

  datatype SwitchVerdict = RefreshFailed | Refused | RpcFailed | Done
  datatype SendVerdict = SendRefreshFailed | UnknownSession | WrongState | Busy | Send

  // ----- Runs and their updates -----

  lemma RunFromOne(m: Model, e: Event)
    ensures RunFrom(m, [e]) == Step(m, e)
    ensures UpdatesFrom(m, [e]) == Updates(m, e)
  {
    assert [e][..0] == [];
    assert RunFrom(m, []) == m && UpdatesFrom(m, []) == [];
  }

  lemma {:induction false} RunFromSplit(m: Model, a: seq<Event>, b: seq<Event>)
    ensures RunFrom(m, a + b) == RunFrom(RunFrom(m, a), b)
    ensures UpdatesFrom(m, a + b) == UpdatesFrom(m, a) + UpdatesFrom(RunFrom(m, a), b)
  {
    if b == [] {
      assert a + b == a;
    } else {
      assert (a + b)[..|a + b| - 1] == a + b[..|b| - 1];
      RunFromSplit(m, a, b[..|b| - 1]);
    }
  }

  function UpdatesFrom(m: Model, es: seq<Event>): seq<(string, SessionUI)> {
    if es == [] then []
    else UpdatesFrom(m, es[..|es| - 1]) + Updates(RunFrom(m, es[..|es| - 1]), es[|es| - 1])
  }

  // ----- A recent snapshot -----

  predicate Recent(e: Entry, now: int) {
    e.fetchedAt != 0 && now - e.fetchedAt <= SESSION_FSM_STALE_AFTER
  }

  predicate Fresh(m: Model, id: string, now: int) {
    id in m.fsm && Recent(m.fsm[id], now)
  }

  predicate Lists(reply: ListReply, id: string) {
    id != "" && LastRow(reply.rows, id).Some?
  }

  /** A refresh that the SDK runs for itself: its reply goes no further. */
  function OwnRefresh(reply: ListReply): Event {
    Refreshed(reply.now, reply.connected, reply.rows, false)
  }

  /** The reply is None when the refresh fails. */
  predicate EnsureFails(m: Model, id: string, now: int, reply: Option<ListReply>) {
    !Fresh(m, id, now) && reply.None?
  }

  function EnsureTrace(m: Model, id: string, now: int, reply: Option<ListReply>): seq<Event> {
    if Fresh(m, id, now) || reply.None? then [] else [OwnRefresh(reply.value)]
  }

  function Ensured(m: Model, id: string, now: int, reply: Option<ListReply>): Model {
    if Fresh(m, id, now) || reply.None? then m else Step(m, OwnRefresh(reply.value))
  }

  lemma EnsuredIsRun(m: Model, id: string, now: int, reply: Option<ListReply>)
    ensures Ensured(m, id, now, reply) == RunFrom(m, EnsureTrace(m, id, now, reply))
    ensures UpdatesFrom(m, EnsureTrace(m, id, now, reply)) == []
    ensures forall e <- EnsureTrace(m, id, now, reply) ::
      e.Refreshed? && !e.delivered && reply == Some(ListReply(e.now, e.connected, e.rows))
  {
    if reply.Some? {
      RunFromOne(m, OwnRefresh(reply.value));
    }
  }

  /**
   The snapshot that a call goes by is recent exactly when it was fresh before or the reply lists the
   session. One that is cached but no longer listed stays as it was, and the call goes by it however
   old it is.
   */
  lemma SnapshotIsRecentExactly(m: Model, id: string, now: int, reply: Option<ListReply>)
    requires !EnsureFails(m, id, now, reply) && (reply.Some? ==> 0 < now <= reply.value.now)
    ensures var after, listed := Ensured(m, id, now, reply), reply.Some? && Lists(reply.value, id);
      && (id in after.fsm <==> id in m.fsm || listed)
      && (id in after.fsm ==> (Recent(after.fsm[id], now) <==> (Fresh(m, id, now) || listed)))
      && (id in after.fsm ==>
        (Recent(after.fsm[id], now) <==> after.fsm[id].fetchedAt != 0 && now - after.fsm[id].fetchedAt <= 2_000))
      && (id in after.fsm && (Fresh(m, id, now) || !listed) ==> after.fsm[id] == m.fsm[id])
  {
    if !Fresh(m, id, now) {
      RefreshActsLocally(m, reply.value.now, reply.value.connected, reply.value.rows, id);
      var after := Ensured(m, id, now, reply);
      assert after.Local(id).entry == if id in after.fsm then Some(after.fsm[id]) else None;
    }
  }

  /** After any timed run a session is fresh exactly while the last step that renewed it is at most 2 s old. */
  lemma FreshExactly(es: seq<Event>, id: string, i: nat, now: int)
    requires TimedRun(es) && i < |History(es, id)| && Renews(History(es, id), i)
    requires forall j | i < j < |History(es, id)| :: !Renews(History(es, id), j)
    ensures var last := History(es, id)[i];
      Fresh(RunFrom(EmptyModel, es), id, now) <==>
        now <= (if last.SwitchSucceeded? then last.begin else last.now) + 2_000
  {
    var h := History(es, id);
    RunsHaveTimedHistories(es, id);
    RecentExactly(h, i, |h|, now);
    assert Lookup(RunFrom(EmptyModel, es).fsm, id) == RunFrom(EmptyModel, es).Local(id).entry;
  }

  /** A session that was listed once as remote and idle, and then no more, passes the send gate ever after. */
  lemma UnlistedSessionStaysOpen(id: string, now: int) returns (es: seq<Event>, reply: ListReply)
    requires id != "" && now > SESSION_FSM_STALE_AFTER + 1
    ensures TimedRun(es) && es != [] && EventNow(es[|es| - 1]) < now == reply.now
    ensures var after := Ensured(RunFrom(EmptyModel, es), id, now, Some(reply));
      id in after.fsm && !Recent(after.fsm[id], now) && SendGateAccepts(after.fsm[id])
  {
    var row := ListedSession(id, true, false, Some(false), 1);
    var e := Refreshed(1, true, [row], true);
    es, reply := [e], ListReply(now, true, []);
    var m := RunFrom(EmptyModel, es);
    RunFromOne(EmptyModel, e);
    RefreshActsLocally(EmptyModel, 1, true, [row], id);
    assert LastRow([row], id) == Some(row);
    assert m.Local(id).entry == ListedStep(None, 1, true, row).entry;
    assert m.fsm[id].fetchedAt == 1 && !Fresh(m, id, now);
    SnapshotIsRecentExactly(m, id, now, Some(reply));
  }

  // ----- A control switch -----

  /** What a call answers, leaves in the cache, and sends. */
  datatype CallResult = CallResult(verdict: SwitchVerdict, after: Model, sent: seq<(string, SessionUI)>)

  /** A ":switch" call: what it asks for, its clock readings in order, the two list replies, and the ack. */
  datatype SwitchCall = SwitchCall(
    id: string, mode: Option<ControlMode>, clock: int -> int,
    reply1: Option<ListReply>, reply2: Option<ListReply>, ack: Ack)
  {
    predicate TakesControl() { mode == Some(ByPhone) }

    function Mark(): Event
      requires mode.Some?
    {
      Session(id, SwitchMarked(clock(1), clock(2), mode.value))
    }

    /** What the acknowledgement does: a failure clears the mark, an acknowledged mode is recorded. */
    function Ending(): seq<Event> {
      if !ack.Accepted? then (if id == "" then [] else [Session(id, SwitchFailed(clock(4)))])
      else if ack.mode.Some? then [Session(id, SwitchSucceeded(clock(4), clock(5), ack.mode.value))]
      else []
    }

    // The call marks a session that it finds, looks again if it takes control, and then decides.

    function Looked(m: Model): Model {
      if mode.Some? then Ensured(m, id, clock(0), reply1) else m
    }

    predicate Finds(m: Model) {
      mode.Some? && !EnsureFails(m, id, clock(0), reply1) && id in Looked(m).fsm
    }

    function Marked(m: Model): Model {
      if Finds(m) then Step(Looked(m), Mark()) else Looked(m)
    }

    function MarkedTrace(m: Model): seq<Event> {
      (if mode.Some? then EnsureTrace(m, id, clock(0), reply1) else []) + if Finds(m) then [Mark()] else []
    }

    function Prepared(m: Model): Model {
      if TakesControl() then Ensured(Marked(m), id, clock(3), reply2) else Marked(m)
    }

    function PreparedTrace(m: Model): seq<Event> {
      MarkedTrace(m) + if TakesControl() then EnsureTrace(Marked(m), id, clock(3), reply2) else []
    }

    predicate SecondRefreshFails(m: Model) {
      TakesControl() && EnsureFails(Marked(m), id, clock(3), reply2)
    }

    predicate GateRejects(m: Model) {
      TakesControl() && !SecondRefreshFails(m) && id in Prepared(m).fsm && !TakeControlGateAccepts(Prepared(m).fsm[id])
    }

    function PreparedVerdict(m: Model): SwitchVerdict {
      if SecondRefreshFails(m) then RefreshFailed else if GateRejects(m) then Refused else Done
    }

    /** The call returns before the RPC. */
    predicate Refrains(m: Model) {
      PreparedVerdict(m) != Done
    }

    function Verdict(m: Model): SwitchVerdict {
      if Refrains(m) then PreparedVerdict(m) else if ack.Accepted? then Done else RpcFailed
    }

    function PreparedResult(m: Model): CallResult {
      CallResult(PreparedVerdict(m), Prepared(m), if Finds(m) then Updates(Looked(m), Mark()) else [])
    }

    function EndedResult(m: Model): CallResult {
      CallResult(if ack.Accepted? then Done else RpcFailed, RunFrom(m, Ending()), UpdatesFrom(m, Ending()))
    }

    function Result(m: Model): CallResult {
      if mode.None? then EndedResult(m)
      else
        var prepared := PreparedResult(m);
        if prepared.verdict != Done then prepared
        else
          var ended := EndedResult(prepared.after);
          ended.(sent := prepared.sent + ended.sent)
    }

    function Trace(m: Model): seq<Event> {
      PreparedTrace(m) + Ended(Refrains(m))
    }

    function Ended(refrained: bool): seq<Event> {
      if refrained then [] else Ending()
    }
  }

  lemma MarkedIsRun(m: Model, c: SwitchCall)
    ensures c.Marked(m) == RunFrom(m, c.MarkedTrace(m))
  {
    EnsuredIsRun(m, c.id, c.clock(0), c.reply1);
    var look := if c.mode.Some? then EnsureTrace(m, c.id, c.clock(0), c.reply1) else [];
    if c.Finds(m) {
      RunFromOne(c.Looked(m), c.Mark());
      RunFromSplit(m, look, [c.Mark()]);
    } else {
      assert look + [] == look;
    }
  }

  lemma PreparedIsRun(m: Model, c: SwitchCall)
    ensures c.Prepared(m) == RunFrom(m, c.PreparedTrace(m))
  {
    MarkedIsRun(m, c);
    var look := if c.TakesControl() then EnsureTrace(c.Marked(m), c.id, c.clock(3), c.reply2) else [];
    EnsuredIsRun(c.Marked(m), c.id, c.clock(3), c.reply2);
    RunFromSplit(m, c.MarkedTrace(m), look);
    assert c.MarkedTrace(m) + [] == c.MarkedTrace(m);
  }

  /** Before the RPC only the mark can send an update. */
  lemma PreparedUpdates(m: Model, c: SwitchCall)
    ensures UpdatesFrom(m, c.PreparedTrace(m)) == if c.Finds(m) then Updates(c.Looked(m), c.Mark()) else []
  {
    var look := if c.mode.Some? then EnsureTrace(m, c.id, c.clock(0), c.reply1) else [];
    var again := if c.TakesControl() then EnsureTrace(c.Marked(m), c.id, c.clock(3), c.reply2) else [];
    EnsuredIsRun(m, c.id, c.clock(0), c.reply1);
    EnsuredIsRun(c.Marked(m), c.id, c.clock(3), c.reply2);
    MarkedIsRun(m, c);
    RunFromSplit(m, c.MarkedTrace(m), again);
    if c.Finds(m) {
      RunFromOne(c.Looked(m), c.Mark());
      RunFromSplit(m, look, [c.Mark()]);
    } else {
      assert c.MarkedTrace(m) == look;
    }
  }

  /** The result of a call is its verdict with the effect and the updates of its trace. */
  lemma ResultIsOfTrace(m: Model, c: SwitchCall)
    ensures c.Result(m) == CallResult(c.Verdict(m), RunFrom(m, c.Trace(m)), UpdatesFrom(m, c.Trace(m)))
  {
    CallSplits(m, c);
    PreparedUpdates(m, c);
    assert [] + c.EndedResult(m).sent == c.EndedResult(m).sent;
  }

  lemma CallSplits(m: Model, c: SwitchCall)
    ensures c.mode.None? ==> c.Prepared(m) == m && UpdatesFrom(m, c.PreparedTrace(m)) == [] && !c.Refrains(m)
    ensures c.Refrains(m) ==>
      && RunFrom(m, c.Trace(m)) == c.Prepared(m)
      && UpdatesFrom(m, c.Trace(m)) == UpdatesFrom(m, c.PreparedTrace(m))
    ensures !c.Refrains(m) ==>
      && RunFrom(m, c.Trace(m)) == RunFrom(c.Prepared(m), c.Ending())
      && UpdatesFrom(m, c.Trace(m)) == UpdatesFrom(m, c.PreparedTrace(m)) + UpdatesFrom(c.Prepared(m), c.Ending())
  {
    PreparedIsRun(m, c);
    PreparedUpdates(m, c);
    RunFromSplit(m, c.PreparedTrace(m), c.Ended(c.Refrains(m)));
    assert c.PreparedTrace(m) + [] == c.PreparedTrace(m);
  }

  predicate IsMarked(m: Model, id: string) {
    id in m.fsm && m.fsm[id].switching
  }

  /** A list refresh never touches the mark of a cached session, and makes none. */
  lemma EnsuredKeepsMark(m: Model, id: string, now: int, reply: Option<ListReply>)
    ensures MarkOf(Lookup(Ensured(m, id, now, reply).fsm, id)) == MarkOf(Lookup(m.fsm, id))
  {
    if reply.Some? {
      var e := OwnRefresh(reply.value);
      RefreshActsLocally(m, e.now, e.connected, e.rows, id);
      assert Lookup(Step(m, e).fsm, id) == Step(m, e).Local(id).entry;
    }
  }

  lemma MarkMarks(m: Model, id: string, begin: int, now: int, mode: ControlMode)
    requires id in m.fsm
    ensures IsMarked(Step(m, Session(id, SwitchMarked(begin, now, mode))), id)
  {
    MarkAfter(Lookup(m.fsm, id), SwitchMarked(begin, now, mode));
  }

  lemma PreparedMark(m: Model, c: SwitchCall)
    ensures IsMarked(c.Prepared(m), c.id) <==> IsMarked(m, c.id) || c.Finds(m)
  {
    EnsuredKeepsMark(m, c.id, c.clock(0), c.reply1);
    EnsuredKeepsMark(c.Marked(m), c.id, c.clock(3), c.reply2);
    if c.Finds(m) {
      MarkMarks(c.Looked(m), c.id, c.clock(1), c.clock(2), c.mode.value);
    }
  }

  lemma EndingClears(m: Model, c: SwitchCall)
    ensures c.Ending() != [] ==> !IsMarked(RunFrom(m, c.Ending()), c.id)
    ensures c.Ending() == [] ==> RunFrom(m, c.Ending()) == m
  {
    if c.Ending() != [] {
      var e := c.Ending()[0];
      assert c.Ending() == [e];
      RunFromOne(m, e);
      MarkAfter(Lookup(m.fsm, c.id), e.step);
    }
  }

  /**
   The flag is set after a switch call exactly when the session was marked before or the call found
   it, and the call then failed to look again, was refused by the gate, or was acknowledged without a
   mode. (A failed call for the empty id clears nothing either.)
   */
  lemma MarkOutlivesCallExactly(m: Model, c: SwitchCall)
    ensures IsMarked(RunFrom(m, c.Trace(m)), c.id) <==>
      && (IsMarked(m, c.id) || c.Finds(m))
      && (c.SecondRefreshFails(m) || c.GateRejects(m) || c.ack == Accepted(None) || (c.id == "" && !c.ack.Accepted?))
  {
    CallSplits(m, c);
    PreparedMark(m, c);
    EndingClears(c.Prepared(m), c);
  }

  /**
   An RPC that fails, or that is acknowledged with a mode, leaves the session cached, published and
   sent to the app as not switching, and the acknowledged side in control.
   */
  lemma EndingIsReported(m: Model, c: SwitchCall)
    requires c.Ending() != []
    ensures var after := RunFrom(m, c.Ending()).Local(c.id);
      && after.entry.Some? && !after.entry.value.switching
      && after.published.Some? && !after.published.value.switching
      && UpdatesFrom(m, c.Ending()) == [(c.id, after.published.value)]
      && (c.ack.Accepted? ==> after.entry.value.controlledByUser == (c.ack.mode.value == ByDesktop))
  {
    var e := c.Ending()[0];
    assert c.Ending() == [e];
    RunFromOne(m, e);
    MarkAfter(Lookup(m.fsm, c.id), e.step);
    ControlAfter(Lookup(m.fsm, c.id), e.step);
    assert Step(m, e).Local(c.id) == m.Local(c.id).After(e.step);
  }

  /** A refusal is of a session that is then known and neither local nor remote, and comes before the RPC. */
  lemma RefusedExactly(m: Model, c: SwitchCall)
    ensures var verdict, before := c.Result(m).verdict, c.Prepared(m);
      && (verdict == RefreshFailed <==>
        c.mode == Some(ByPhone) && c.reply2.None? && !Fresh(c.Marked(m), c.id, c.clock(3)))
      && (verdict == Refused <==>
        && c.mode == Some(ByPhone) && (c.reply2.Some? || Fresh(c.Marked(m), c.id, c.clock(3)))
        && c.id in before.fsm && before.fsm[c.id].state != Local && before.fsm[c.id].state != Remote)
      && (verdict in {RefreshFailed, Refused} ==> c.Result(m).after == before && |c.Result(m).sent| <= 1)
  {
  }

  /** Any other answer is that of the ack, and the session is then cached as the ack says. */
  lemma AnsweredExactly(m: Model, c: SwitchCall)
    requires c.Result(m).verdict !in {RefreshFailed, Refused}
    ensures c.Result(m).verdict == if c.ack.Accepted? then Done else RpcFailed
    ensures var entry := Lookup(c.Result(m).after.fsm, c.id);
      && (!c.ack.Accepted? && c.id != "" ==> entry.Some? && !entry.value.switching)
      && (c.ack.Accepted? && c.ack.mode.Some? ==>
        entry.Some? && !entry.value.switching && entry.value.controlledByUser == (c.ack.mode == Some(ByDesktop)))
  {
    CallSplits(m, c);
    assert c.Result(m).after == RunFrom(c.Prepared(m), c.Ending());
    if c.Ending() != [] {
      EndingIsReported(c.Prepared(m), c);
    }
  }

  /**
   A call that finds its session leaves it marked, before the RPC, with the target it asked for and
   the time of the mark, and in a cached record that says so while the mark is at most 15 s old.
   */
  lemma MarkNamesTarget(m: Model, c: SwitchCall)
    requires c.Finds(m)
    ensures var after := c.Marked(m);
      && c.id in after.fsm && after.fsm[c.id].switching && after.fsm[c.id].switchingAt == c.clock(1)
      && (after.fsm[c.id].transition == ToLocal <==> c.mode == Some(ByDesktop))
      && (after.fsm[c.id].transition == ToRemote <==> c.mode == Some(ByPhone))
      && after.fsm[c.id].uiJSON.Some?
      && var ui := after.fsm[c.id].uiJSON.value;
        && (c.clock(1) <= 0 || c.clock(2) - c.clock(1) <= 15_000 ==>
          ui.switching && ui.transition == after.fsm[c.id].transition)
        && (c.clock(2) - c.clock(1) > 15_000 && c.clock(1) > 0 ==> !ui.switching)
        && (c.mode == Some(ByPhone) ==> MarkOf(Lookup(c.Prepared(m).fsm, c.id)) == Some((c.clock(1), ToRemote)))
        && (forall sent <- Updates(c.Looked(m), c.Mark()) :: sent == (c.id, ui))
  {
    var stored := Lookup(c.Looked(m).fsm, c.id);
    MarkAfter(stored, c.Mark().step);
    assert Lookup(c.Marked(m).fsm, c.id) == LocalStep(stored, c.Mark().step).entry;
    EnsuredKeepsMark(c.Marked(m), c.id, c.clock(3), c.reply2);
  }

  /** The call finds a session that is fresh, or that a refresh which succeeds finds cached or listed. */
  lemma FindsExactly(m: Model, c: SwitchCall)
    ensures c.Finds(m) <==>
      && c.mode.Some?
      && (Fresh(m, c.id, c.clock(0)) || (c.reply1.Some? && (c.id in m.fsm || Lists(c.reply1.value, c.id))))
  {
    if c.reply1.Some? {
      var e := OwnRefresh(c.reply1.value);
      RefreshActsLocally(m, e.now, e.connected, e.rows, c.id);
      assert c.id in Step(m, e).fsm <==> Step(m, e).Local(c.id).entry.Some?;
    }
  }

  /**
   Failures do not always clear the mark: a take-control request for a session that was just listed
   as offline is refused and leaves it marked, whatever the server would have answered.
   */
  lemma RefusalLeavesMark(id: string, ack: Ack) returns (es: seq<Event>, c: SwitchCall)
    requires id != ""
    ensures TimedRun(es) && c.id == id && c.ack == ack && c.TakesControl()
    ensures var m := RunFrom(EmptyModel, es);
      !IsMarked(m, id) && c.Verdict(m) == Refused && IsMarked(RunFrom(m, c.Trace(m)), id)
  {
    var row := ListedSession(id, false, false, None, 1);
    var e := Refreshed(1, true, [row], true);
    es := [e];
    c := SwitchCall(id, Some(ByPhone), i => i + 2, None, None, ack);
    var m := RunFrom(EmptyModel, es);
    RunFromOne(EmptyModel, e);
    RefreshActsLocally(EmptyModel, 1, true, [row], id);
    assert LastRow([row], id) == Some(row);
    assert m.Local(id).entry == ListedStep(None, 1, true, row).entry;
    OfflineIsRefused(m, c, row);
    MarkOutlivesCallExactly(m, c);
  }

  lemma OfflineIsRefused(m: Model, c: SwitchCall, row: ListedSession)
    requires c == SwitchCall(c.id, Some(ByPhone), c.clock, None, None, c.ack)
    requires forall i :: c.clock(i) == i + 2
    requires m.Local(c.id).entry == ListedStep(None, 1, true, row).entry && !row.active
    ensures !IsMarked(m, c.id) && c.Finds(m) && c.GateRejects(m)
  {
    var stored := Lookup(m.fsm, c.id);
    var out := MarkStep(stored, 3, 4, ByPhone);
    assert Fresh(m, c.id, 2);
    assert c.Marked(m) == m.Store(c.id, out);
    assert out.entry.value.state == Offline && out.entry.value.fetchedAt in {1, 4};
  }

  /** Each event of a call is a refresh from its own replies, its mark, or the ending its ack calls for. */
  lemma TraceIsOfThisCall(m: Model, c: SwitchCall)
    ensures forall e <- c.Trace(m) ::
      || (c.reply1.Some? && e == OwnRefresh(c.reply1.value))
      || (c.reply2.Some? && e == OwnRefresh(c.reply2.value))
      || (c.mode.Some? && e == c.Mark())
      || e in c.Ending()
    ensures |c.Trace(m)| <= 4
  {
  }

  /** The clock never goes back during the call, and each list reply arrives between its readings. */
  ghost predicate TimedCall(c: SwitchCall) {
    && 0 < c.clock(0) <= c.clock(1) <= c.clock(2) <= c.clock(3) <= c.clock(4) <= c.clock(5)
    && (c.reply1.Some? ==> c.clock(0) <= c.reply1.value.now <= c.clock(1))
    && (c.reply2.Some? ==> c.clock(3) <= c.reply2.value.now <= c.clock(4))
  }

  ghost predicate Within(es: seq<Event>, from: int, to: int) {
    TimedRun(es) && forall e <- es :: from <= EventBegin(e) && EventNow(e) <= to
  }

  lemma WithinJoin(a: seq<Event>, b: seq<Event>, from: int, mid: int, to: int)
    requires from <= mid <= to && Within(a, from, mid) && Within(b, mid, to)
    ensures Within(a + b, from, to)
  {
    var es := a + b;
    forall i | 0 <= i < |es|
      ensures 0 < EventBegin(es[i]) <= EventNow(es[i]) && from <= EventBegin(es[i]) && EventNow(es[i]) <= to
    {
      assert if i < |a| then es[i] == a[i] && a[i] in a else es[i] == b[i - |a|] && b[i - |a|] in b;
    }
    forall i, j | 0 <= i < j < |es|
      ensures EventNow(es[i]) <= EventBegin(es[j])
    {
      assert if i < |a| then es[i] == a[i] && a[i] in a else es[i] == b[i - |a|];
      assert if j < |a| then es[j] == a[j] else es[j] == b[j - |a|] && b[j - |a|] in b;
    }
  }

  lemma EnsureIsTimed(m: Model, id: string, now: int, reply: Option<ListReply>, from: int, to: int)
    requires 0 < from <= to && (reply.Some? ==> from <= reply.value.now <= to)
    ensures Within(EnsureTrace(m, id, now, reply), from, to)
  {
  }

  lemma MarkedIsTimed(m: Model, c: SwitchCall)
    requires TimedCall(c)
    ensures Within(c.MarkedTrace(m), c.clock(0), c.clock(3))
  {
    var look := if c.mode.Some? then EnsureTrace(m, c.id, c.clock(0), c.reply1) else [];
    EnsureIsTimed(m, c.id, c.clock(0), c.reply1, c.clock(0), c.clock(1));
    WithinJoin(look, if c.Finds(m) then [c.Mark()] else [], c.clock(0), c.clock(1), c.clock(3));
  }

  lemma PreparedIsTimed(m: Model, c: SwitchCall)
    requires TimedCall(c)
    ensures Within(c.PreparedTrace(m), c.clock(0), c.clock(4))
  {
    var look := if c.TakesControl() then EnsureTrace(c.Marked(m), c.id, c.clock(3), c.reply2) else [];
    MarkedIsTimed(m, c);
    EnsureIsTimed(c.Marked(m), c.id, c.clock(3), c.reply2, c.clock(3), c.clock(4));
    WithinJoin(c.MarkedTrace(m), look, c.clock(0), c.clock(3), c.clock(4));
  }

  lemma EndedIsTimed(c: SwitchCall, refrained: bool)
    requires TimedCall(c)
    ensures Within(c.Ended(refrained), c.clock(4), c.clock(5))
  {
  }

  /** A timed call is a timed run, so every law of timed runs holds of it, and of runs that it extends. */
  lemma CallIsTimed(m: Model, c: SwitchCall)
    requires TimedCall(c)
    ensures Within(c.Trace(m), c.clock(0), c.clock(5))
  {
    PreparedIsTimed(m, c);
    var refrained := c.Refrains(m);
    EndedIsTimed(c, refrained);
    WithinJoin(c.PreparedTrace(m), c.Ended(refrained), c.clock(0), c.clock(4), c.clock(5));
  }

  /** After any timed run that ends in a timed call, the cache is as good as after any other. */
  lemma CallExtendsRun(es: seq<Event>, c: SwitchCall)
    requires TimedCall(c) && Within(es, 0, c.clock(0))
    ensures var m := RunFrom(EmptyModel, es);
      TimedRun(es + c.Trace(m)) && RunFrom(EmptyModel, es + c.Trace(m)) == RunFrom(m, c.Trace(m))
  {
    var m := RunFrom(EmptyModel, es);
    CallIsTimed(m, c);
    WithinJoin(es, c.Trace(m), 0, c.clock(0), c.clock(5));
    RunFromSplit(EmptyModel, es, c.Trace(m));
  }

  /** In every reachable cache the gate lets the phone take control of just the connected online sessions. */
  lemma GateReadsPresence(es: seq<Event>, id: string)
    requires TimedRun(es) && id in RunFrom(EmptyModel, es).fsm
    ensures var e := RunFrom(EmptyModel, es).fsm[id];
      TakeControlGateAccepts(e) <==> e.connected && e.online
  {
    ReachableCacheGood(es);
    assert Good(RunFrom(EmptyModel, es).Local(id));
  }

  /** What the call knows of presence once it has looked: the reply's word, if it had to ask and was told. */
  function PresenceSeen(known: (bool, bool), recent: bool, reply: Option<ListReply>, id: string): (bool, bool) {
    if recent || reply.None? || !Lists(reply.value, id) then known
    else (reply.value.connected, LastRow(reply.value.rows, id).value.active)
  }

  lemma EnsuredPresence(m: Model, id: string, now: int, reply: Option<ListReply>)
    ensures PresenceOf(Lookup(Ensured(m, id, now, reply).fsm, id))
      == PresenceSeen(PresenceOf(Lookup(m.fsm, id)), Fresh(m, id, now), reply, id)
  {
    if reply.Some? {
      var e := OwnRefresh(reply.value);
      RefreshActsLocally(m, e.now, e.connected, e.rows, id);
      assert Lookup(Step(m, e).fsm, id) == Step(m, e).Local(id).entry;
      if Lists(reply.value, id) {
        PresenceAfter(Lookup(m.fsm, id), Listed(e.now, e.connected, LastRow(e.rows, id).value, false));
      }
    }
  }

  lemma MarkedPresence(m: Model, c: SwitchCall)
    requires c.mode.Some?
    ensures PresenceOf(Lookup(c.Marked(m).fsm, c.id))
      == PresenceSeen(PresenceOf(Lookup(m.fsm, c.id)), Fresh(m, c.id, c.clock(0)), c.reply1, c.id)
  {
    EnsuredPresence(m, c.id, c.clock(0), c.reply1);
    if c.Finds(m) {
      var looked, e := c.Looked(m), c.Mark().step;
      PresenceAfter(Lookup(looked.fsm, c.id), e);
      assert Lookup(c.Marked(m).fsm, c.id) == LocalStep(Lookup(looked.fsm, c.id), e).entry;
    }
  }

  /**
   A take-control request is refused exactly when the session is known and, as far as the cache and
   the replies that the call asked for can tell, not both connected and online.
   */
  lemma GateRejectsExactly(es: seq<Event>, c: SwitchCall)
    requires TimedCall(c) && Within(es, 0, c.clock(0)) && c.TakesControl()
    ensures var m := RunFrom(EmptyModel, es);
      var recent := Fresh(c.Marked(m), c.id, c.clock(3));
      var first := PresenceSeen(PresenceOf(Lookup(m.fsm, c.id)), Fresh(m, c.id, c.clock(0)), c.reply1, c.id);
      c.GateRejects(m) <==>
        && (recent || c.reply2.Some?)
        && c.id in c.Prepared(m).fsm
        && PresenceSeen(first, recent, c.reply2, c.id) != (true, true)
  {
    var m := RunFrom(EmptyModel, es);
    PreparedIsRun(m, c);
    PreparedIsTimed(m, c);
    WithinJoin(es, c.PreparedTrace(m), 0, c.clock(0), c.clock(4));
    RunFromSplit(EmptyModel, es, c.PreparedTrace(m));
    MarkedPresence(m, c);
    EnsuredPresence(c.Marked(m), c.id, c.clock(3), c.reply2);
    if c.id in c.Prepared(m).fsm {
      GateReadsPresence(es + c.PreparedTrace(m), c.id);
    }
  }
}
