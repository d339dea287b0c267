/**
 The app's own list of sessions (ios/DelightApp/SDKBridge.swift), where it keeps their UI records. A
 delivered list replaces it; a session-ui update or an activity ephemeral changes the first row with
 its id, if there is one, and is thrown away otherwise.
 */
module SessionList {
  import opened Common
  import opened SessionFsm
  import opened SessionSteps

  function FirstIndex(list: seq<Summary>, id: string): (i: Option<nat>)
    ensures i.Some? ==> i.value < |list| && list[i.value].id == id
    ensures forall k | 0 <= k < (if i.Some? then i.value else |list|) :: list[k].id != id
  {
    if list == [] then None
    else if list[0].id == id then Some(0)
    else
      var i := FirstIndex(list[1..], id);
      if i.Some? then Some(i.value + 1) else None
  }

  /** The record that the app has of a session, if it lists the session. */
  function Held(list: seq<Summary>, id: string): Option<SessionUI> {
    var i := FirstIndex(list, id);
    if i.Some? then Some(list[i.value].ui) else None
  }

  /** updatingActivity: the app's own reading of an activity ephemeral. It knows no working hold. */
  function Patched(ui: SessionUI, active: bool, working: bool): SessionUI {
    SessionUI(ui.connected, active, active && working, if active then ui.mode else NoMode, ui.switching, ui.transition)
  }

  function WithUI(list: seq<Summary>, id: string, ui: SessionUI): seq<Summary> {
    var i := FirstIndex(list, id);
    if i.Some? then list[i.value := list[i.value].(ui := ui)] else list
  }

  function WithActivity(list: seq<Summary>, id: string, active: bool, working: bool): seq<Summary> {
    var i := FirstIndex(list, id);
    if i.Some? then list[i.value := list[i.value].(ui := Patched(list[i.value].ui, active, working))] else list
  }

  function Without(list: seq<Summary>, ids: set<string>): seq<Summary> {
    if list == [] then []
    else if list[0].id in ids then Without(list[1..], ids)
    else [list[0]] + Without(list[1..], ids)
  }

  /** The records of a list reply by id: the last row wins. */
  function UIByID(rows: seq<Summary>): map<string, SessionUI> {
    if rows == [] then map[] else UIByID(rows[..|rows| - 1])[rows[|rows| - 1].id := rows[|rows| - 1].ui]
  }

  lemma {:induction false} UIByIDHolds(rows: seq<Summary>)
    ensures forall id :: id in UIByID(rows) <==> exists r <- rows :: r.id == id
  {
    if rows != [] {
      UIByIDHolds(rows[..|rows| - 1]);
      assert rows == rows[..|rows| - 1] + [rows[|rows| - 1]];
    }
  }

  function Parsed(rows: seq<Summary>): seq<Summary> {
    seq(|rows|, i requires 0 <= i < |rows| => Summary(rows[i].id, Lookup(UIByID(rows), rows[i].id).GetOr(rows[i].ui)))
  }

  lemma ParsedHolds(rows: seq<Summary>, id: string)
    ensures Held(Parsed(rows), id) == Lookup(UIByID(rows), id)
  {
    UIByIDHolds(rows);
    if r :| r in rows && r.id == id {
      var k :| 0 <= k < |rows| && rows[k] == r;
      assert Parsed(rows)[k].id == id;
    }
  }

  class Sessions {
    var sessions: seq<Summary>

    constructor ()
      ensures sessions == []
    {
      sessions := [];
    }

    method ParseSessions(rows: seq<Summary>)
      modifies this
      ensures sessions == Parsed(rows)
      ensures forall id :: Held(sessions, id) == Lookup(UIByID(rows), id)
    {
      var uiByID: map<string, SessionUI> := map[];
      for i := 0 to |rows|
        invariant uiByID == UIByID(rows[..i])
      {
        uiByID := uiByID[rows[i].id := rows[i].ui];
        assert rows[..i + 1][..i] == rows[..i];
      }
      assert rows[..|rows|] == rows;
      UIByIDHolds(rows);
      sessions := [];
      for i := 0 to |rows|
        invariant sessions == Parsed(rows)[..i]
      {
        assert rows[i] in rows;
        sessions := sessions + [Summary(rows[i].id, uiByID[rows[i].id])];
      }
      forall id: string
        ensures Held(Parsed(rows), id) == Lookup(UIByID(rows), id)
      {
        ParsedHolds(rows, id);
      }
    }

    method HandleSessionUIUpdate(id: string, ui: SessionUI)
      modifies this
      ensures sessions == WithUI(old(sessions), id, ui)
    {
      var index := FirstIndex(sessions, id);
      if index.Some? {
        sessions := sessions[index.value := Summary(sessions[index.value].id, ui)];
      }
    }

    method HandleActivityUpdate(id: string, active: bool, working: bool)
      modifies this
      ensures sessions == WithActivity(old(sessions), id, active, working)
    {
      var index := FirstIndex(sessions, id);
      if index.Some? {
        var prev := sessions[index.value];
        sessions := sessions[index.value := prev.(ui := Patched(prev.ui, active, working))];
      }
    }

    /** Deleting a terminal removes its sessions; clearing the app's state removes all. */
    method RemoveSessions(ids: set<string>)
      modifies this
      ensures sessions == Without(old(sessions), ids)
    {
      var kept: seq<Summary> := [];
      for i := 0 to |sessions|
        invariant sessions == old(sessions)
        invariant Without(sessions, ids) == kept + Without(sessions[i..], ids)
      {
        if sessions[i].id !in ids {
          kept := kept + [sessions[i]];
        }
      }
      sessions := kept;
    }
  }

  // ----- What each does to the record of one session -----

  lemma WithUIHolds(list: seq<Summary>, id: string, ui: SessionUI, other: string)
    ensures Held(WithUI(list, id, ui), other)
      == if other == id && Held(list, id).Some? then Some(ui) else Held(list, other)
  {
    SameIdsSameIndex(list, WithUI(list, id, ui), other);
  }

  lemma WithActivityHolds(list: seq<Summary>, id: string, active: bool, working: bool, other: string)
    ensures Held(WithActivity(list, id, active, working), other)
      == if other == id && Held(list, id).Some? then Some(Patched(Held(list, id).value, active, working))
        else Held(list, other)
  {
    SameIdsSameIndex(list, WithActivity(list, id, active, working), other);
  }

  lemma SameIdsSameIndex(a: seq<Summary>, b: seq<Summary>, id: string)
    requires |a| == |b| && forall i | 0 <= i < |a| :: a[i].id == b[i].id
    ensures FirstIndex(a, id) == FirstIndex(b, id)
  {
    var i, j := FirstIndex(a, id), FirstIndex(b, id);
    if i.Some? {
      assert b[i.value].id == id;
    }
    if j.Some? {
      assert a[j.value].id == id;
    }
  }

  lemma {:induction false} WithoutHolds(list: seq<Summary>, ids: set<string>, id: string)
    ensures Held(Without(list, ids), id) == if id in ids then None else Held(list, id)
  {
    if list != [] {
      WithoutHolds(list[1..], ids, id);
      HeldCons(list[0], list[1..], id);
      HeldCons(list[0], Without(list[1..], ids), id);
      assert list == [list[0]] + list[1..];
    }
  }

  lemma HeldCons(first: Summary, rest: seq<Summary>, id: string)
    ensures Held([first] + rest, id) == if first.id == id then Some(first.ui) else Held(rest, id)
  {
    assert ([first] + rest)[1..] == rest;
  }

  // ----- The order of the list -----

  /** The app lists the sessions in the order of the reply, and updates and ephemerals keep it. */
  lemma OrderIsKept(rows: seq<Summary>, list: seq<Summary>, id: string, ui: SessionUI, active: bool, working: bool)
    ensures |Parsed(rows)| == |rows| && forall i | 0 <= i < |rows| :: Parsed(rows)[i].id == rows[i].id
    ensures var told, patched := WithUI(list, id, ui), WithActivity(list, id, active, working);
      && |told| == |patched| == |list|
      && forall i | 0 <= i < |list| ::
        && told[i].id == patched[i].id == list[i].id
        && (list[i].id != id ==> told[i] == patched[i] == list[i])
  {
  }

  /** A removal leaves out just the removed sessions, and keeps the others as they were, in order. */
  lemma {:induction false} RemovalFilters(a: seq<Summary>, b: seq<Summary>, ids: set<string>)
    ensures Without(a + b, ids) == Without(a, ids) + Without(b, ids)
    ensures (forall s <- Without(a, ids) :: s.id !in ids)
    ensures (forall s <- a :: s.id !in ids) ==> Without(a, ids) == a
  {
    if a == [] {
      assert a + b == b;
    } else {
      assert (a + b)[1..] == a[1..] + b && a == [a[0]] + a[1..];
      RemovalFilters(a[1..], b, ids);
    }
  }

  // ----- The list over a run -----

  /** The update that a step sends comes first, and then the ephemeral itself. */
  function Told(list: seq<Summary>, id: string, out: Outcome, step: SessionStep): seq<Summary> {
    var told := if out.published && out.ui.Some? then WithUI(list, id, out.ui.value) else list;
    if step.Activity? then WithActivity(told, id, step.active, step.working) else told
  }

  function AppStep(list: seq<Summary>, m: Model, e: Event): seq<Summary> {
    match e
    case Refreshed(now, connected, rows, delivered) =>
      if delivered then Parsed(Enriched(m, now, connected, rows)) else list
    case Session(id, step) => Told(list, id, LocalStep(Lookup(m.fsm, id), step), step)
    case Removed(_, ids) => Without(list, ids)
  }

  function AppRun(es: seq<Event>): seq<Summary> {
    if es == [] then []
    else AppStep(AppRun(es[..|es| - 1]), RunFrom(EmptyModel, es[..|es| - 1]), es[|es| - 1])
  }

  /** The same for one session, whose record is None while the app does not list it. */
  function Heard(held: Option<SessionUI>, out: Outcome, e: LocalEvent): Option<SessionUI> {
    if e.Listed? then if e.delivered then out.ui else held
    else if e.Forgotten? || held.None? then None
    else
      var told := if out.published then out.ui else held;
      if e.Activity? && told.Some? then Some(Patched(told.value, e.active, e.working)) else told
  }

  /** A step of a session's history with what it computed. */
  datatype Beat = Beat(e: LocalEvent, out: Outcome)

  function TraceOf(h: seq<LocalEvent>): (t: seq<Beat>)
    ensures |t| == |h|
  {
    if h == [] then []
    else
      var init, e := h[..|h| - 1], h[|h| - 1];
      TraceOf(init) + [Beat(e, LocalStep(StateAt(init, |init|).entry, e))]
  }

  lemma {:induction false} BeatAt(h: seq<LocalEvent>, i: nat)
    requires i < |h|
    ensures TraceOf(h)[i] == Beat(h[i], LocalStep(StateAt(h, i).entry, h[i]))
  {
    var init := h[..|h| - 1];
    assert h == init + [h[|h| - 1]];
    StateAtPrefix(init, [h[|h| - 1]], i);
    if i < |h| - 1 {
      BeatAt(init, i);
    }
  }

  /** The app's record of the session after k steps. */
  function AppAt(t: seq<Beat>, k: nat): Option<SessionUI>
    requires k <= |t|
  {
    if k == 0 then None else Heard(AppAt(t, k - 1), t[k - 1].out, t[k - 1].e)
  }

  lemma {:induction false} AppAtPrefix(t: seq<Beat>, more: seq<Beat>, k: nat)
    requires k <= |t|
    ensures AppAt(t + more, k) == AppAt(t, k)
  {
    if k > 0 {
      AppAtPrefix(t, more, k - 1);
    }
  }

  lemma {:induction false} EnrichedHolds(m: Model, now: int, connected: bool, rows: seq<ListedSession>, id: string)
    ensures Lookup(UIByID(Enriched(m, now, connected, rows)), id)
      == if LastRow(rows, id).Some? then ListedStep(Lookup(m.fsm, id), now, connected, LastRow(rows, id).value).ui
        else None
  {
    if rows != [] {
      EnrichedHolds(m, now, connected, rows[..|rows| - 1], id);
      var all, init := Enriched(m, now, connected, rows), Enriched(m, now, connected, rows[..|rows| - 1]);
      assert all[..|all| - 1] == init;
    }
  }

  lemma ToldHolds(list: seq<Summary>, id: string, out: Outcome, step: SessionStep, other: string)
    requires out.published ==> out.ui.Some?
    ensures Held(Told(list, id, out, step), other)
      == if other == id then Heard(Held(list, id), out, step) else Held(list, other)
  {
    var told := list;
    if out.published {
      told := WithUI(list, id, out.ui.value);
      WithUIHolds(list, id, out.ui.value, id);
      WithUIHolds(list, id, out.ui.value, other);
    }
    if step.Activity? {
      WithActivityHolds(told, id, step.active, step.working, other);
    }
  }

  lemma PublishedIsComputed(stored: Option<Entry>, e: LocalEvent)
    ensures LocalStep(stored, e).published ==> LocalStep(stored, e).ui.Some?
  {
  }

  lemma ListActsLocally(
    list: seq<Summary>, m: Model, now: int, connected: bool, rows: seq<ListedSession>, id: string)
    requires id != ""
    ensures Held(AppStep(list, m, Refreshed(now, connected, rows, true)), id)
      == if LastRow(rows, id).Some? then ListedStep(Lookup(m.fsm, id), now, connected, LastRow(rows, id).value).ui
        else None
  {
    EnrichedHolds(m, now, connected, rows, id);
    ParsedHolds(Enriched(m, now, connected, rows), id);
  }

  /** What an event does to the record of one session is what that session's share of it does. */
  function HeardShare(held: Option<SessionUI>, stored: Option<Entry>, share: seq<LocalEvent>): Option<SessionUI> {
    if share == [] then held else Heard(held, LocalStep(stored, share[0]), share[0])
  }

  lemma AppActsLocally(list: seq<Summary>, m: Model, e: Event, id: string)
    requires id != ""
    ensures Held(AppStep(list, m, e), id) == HeardShare(Held(list, id), Lookup(m.fsm, id), Share(e, id))
  {
    match e
    case Refreshed(now, connected, rows, delivered) => ListActsLocally(list, m, now, connected, rows, id);
    case Session(sid, step) =>
      PublishedIsComputed(Lookup(m.fsm, sid), step);
      ToldHolds(list, sid, LocalStep(Lookup(m.fsm, sid), step), step, id);
    case Removed(_, ids) => WithoutHolds(list, ids, id);
  }

  lemma AppAtSnoc(t: seq<Beat>, b: Beat)
    ensures AppAt(t + [b], |t| + 1) == Heard(AppAt(t, |t|), b.out, b.e)
  {
    AppAtPrefix(t, [b], |t|);
  }

  lemma TraceGrows(h: seq<LocalEvent>, e: LocalEvent)
    ensures TraceOf(h + [e]) == TraceOf(h) + [Beat(e, LocalStep(StateAt(h, |h|).entry, e))]
  {
    assert (h + [e])[..|h|] == h;
  }

  lemma AppAtGrows(before: seq<LocalEvent>, share: seq<LocalEvent>)
    requires |share| <= 1
    ensures AppAt(TraceOf(before + share), |before + share|)
      == HeardShare(AppAt(TraceOf(before), |before|), StateAt(before, |before|).entry, share)
  {
    if share == [] {
      assert before + share == before;
    } else {
      assert share == [share[0]];
      TraceGrows(before, share[0]);
      AppAtSnoc(TraceOf(before), Beat(share[0], LocalStep(StateAt(before, |before|).entry, share[0])));
    }
  }

  /** After any run the app's record of a session is the one that the session's own history gives it. */
  lemma {:induction false} AppRunIsLocal(es: seq<Event>, id: string)
    requires id != ""
    ensures Held(AppRun(es), id) == AppAt(TraceOf(History(es, id)), |History(es, id)|)
  {
    if es != [] {
      var init, e := es[..|es| - 1], es[|es| - 1];
      var m := RunFrom(EmptyModel, init);
      AppRunIsLocal(init, id);
      AppActsLocally(AppRun(init), m, e, id);
      RunIsLocal(init, id);
      assert Lookup(m.fsm, id) == m.Local(id).entry;
      StepActsLocally(m, e, id);
      AppAtGrows(History(init, id), Share(e, id));
    }
  }
}
