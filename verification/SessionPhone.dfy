/**
 What the app shows of a session, next to what the SDK caches. The two can part in three ways: a list
 refresh that the SDK runs for itself drops its reply, the app does not list the session, or the app's
 own reading of an ephemeral ignores the working hold.

 The laws are stated of a session's trace, the steps of its history with what each computed, so that
 no proof about the app needs to know how the SDK computes it.
 */
module SessionPhone {
  import opened Common
  import opened SessionFsm
  import opened SessionSteps
  import opened SessionView
  import opened SessionRuns
  import opened SessionList

  predicate DropsReply(e: LocalEvent) {
    e.Listed? && !e.delivered
  }

  ghost predicate ShowsSwitching(ui: Option<SessionUI>) {
    ui.Some? && ui.value.switching
  }

  /** The record injected or sent last. */
  function PublishedAt(t: seq<Beat>, k: nat): Option<SessionUI>
    requires k <= |t|
  {
    if k == 0 then None else if t[k - 1].out.published then t[k - 1].out.ui else PublishedAt(t, k - 1)
  }

  // ----- What holds of every trace of a timed history -----

  ghost predicate Plausible(t: seq<Beat>) {
    forall i | 0 <= i < |t| :: PlausibleBeat(t[i], PublishedAt(t, i))
  }

  /**
   A record that is not published is the published one already; an ephemeral's record has its online
   flag and at least its working flag; and a dropped refresh shows a switch only if it was shown.
   */
  ghost predicate PlausibleBeat(b: Beat, published: Option<SessionUI>) {
    && (b.out.published ==> b.out.ui.Some?)
    && (b.e.Listed? ==> b.out.published)
    && (b.e.Forgotten? ==> !b.out.published)
    && (b.out.ui.Some? && !b.out.published ==> b.out.ui == published)
    && (b.e.Activity? ==>
      && b.out.ui.Some? && b.out.ui.value.online == b.e.active && (!b.e.active ==> b.out.ui.value.mode == NoMode)
      && (b.e.active && b.e.working ==> b.out.ui.value.working))
    && (DropsReply(b.e) && ShowsSwitching(b.out.ui) ==> ShowsSwitching(published))
  }

  lemma {:induction false} PublishedIs(h: seq<LocalEvent>, k: nat)
    requires k <= |h|
    ensures PublishedAt(TraceOf(h), k) == StateAt(h, k).published
  {
    if k > 0 {
      PublishedIs(h, k - 1);
      BeatAt(h, k - 1);
    }
  }

  lemma PublishedAfter(h: seq<LocalEvent>, k: nat)
    requires Timed(h) && k < |h|
    ensures var out := LocalStep(StateAt(h, k).entry, h[k]);
      StateAt(h, k + 1).published == if out.ui.Some? then out.ui else StateAt(h, k).published
  {
    EmitsExactlyOnChange(h, k);
    EveryStateGood(h, k);
  }

  lemma ShownExactly(h: seq<LocalEvent>, k: nat)
    requires Timed(h) && k < |h|
    ensures ShowsSwitching(LocalStep(StateAt(h, k).entry, h[k]).ui) <==>
      && Standing(h, LastMark(h, k + 1), k)
      && !h[k].SwitchSucceeded? && !h[k].SwitchFailed? && !h[k].Forgotten?
      && h[k].now <= h[LastMark(h, k + 1).value].begin + 15_000
  {
    SwitchingShownExactly(h, k);
  }

  lemma ForgettingPublishesNothing(h: seq<LocalEvent>, k: nat)
    requires k < |h| && h[k].Forgotten?
    ensures StateAt(h, k + 1) == StateAt(h, k) && LastMark(h, k + 1) == LastMark(h, k)
  {
  }

  /** While a mark stands and has not expired, the published record shows it. */
  lemma {:induction false} StandingMarkIsPublished(h: seq<LocalEvent>, k: nat)
    requires Timed(h) && k < |h| && Standing(h, LastMark(h, k + 1), k + 1)
    requires h[k].now <= h[LastMark(h, k + 1).value].begin + 15_000
    ensures ShowsSwitching(StateAt(h, k + 1).published)
  {
    var m := LastMark(h, k + 1).value;
    assert m == k || h[k].Listed? || h[k].Forgotten?;
    assert Standing(h, LastMark(h, k + 1), k);
    if h[k].Forgotten? {
      ForgettingPublishesNothing(h, k);
      assert h[k - 1].now <= h[k].Begin();
      StandingMarkIsPublished(h, k - 1);
    } else {
      ShownExactly(h, k);
      PublishedAfter(h, k);
    }
  }

  lemma DroppedSwitchWasPublished(h: seq<LocalEvent>, k: nat)
    requires Timed(h) && k < |h| && h[k].Listed? && ShowsSwitching(LocalStep(StateAt(h, k).entry, h[k]).ui)
    ensures ShowsSwitching(StateAt(h, k).published)
  {
    ShownExactly(h, k);
    assert LastMark(h, k) == LastMark(h, k + 1);
    assert h[k - 1].now <= h[k].Begin();
    StandingMarkIsPublished(h, k - 1);
  }

  lemma ActivityRecord(stored: Option<Entry>, e: LocalEvent)
    requires e.Activity?
    ensures var ui := LocalStep(stored, e).ui;
      && ui.Some? && ui.value.online == e.active && (!e.active ==> ui.value.mode == NoMode)
      && (e.active && e.working ==> ui.value.working)
  {
  }

  lemma BeatIsPlausible(h: seq<LocalEvent>, i: nat)
    requires Timed(h) && i < |h|
    ensures PlausibleBeat(Beat(h[i], LocalStep(StateAt(h, i).entry, h[i])), StateAt(h, i).published)
  {
    EmitsExactlyOnChange(h, i);
    EveryStateGood(h, i);
    PublishedIsComputed(StateAt(h, i).entry, h[i]);
    if h[i].Activity? {
      ActivityRecord(StateAt(h, i).entry, h[i]);
    }
    if DropsReply(h[i]) && ShowsSwitching(LocalStep(StateAt(h, i).entry, h[i]).ui) {
      DroppedSwitchWasPublished(h, i);
    }
  }

  lemma TraceIsPlausible(h: seq<LocalEvent>)
    requires Timed(h)
    ensures Plausible(TraceOf(h))
  {
    forall i | 0 <= i < |h|
      ensures PlausibleBeat(TraceOf(h)[i], PublishedAt(TraceOf(h), i))
    {
      BeatAt(h, i);
      PublishedIs(h, i);
      BeatIsPlausible(h, i);
    }
  }

  // ----- Whether the app lists the session -----

  /** A delivered list held the session, and neither a later one nor the app has dropped it since. */
  ghost predicate StillListed(t: seq<Beat>, i: nat, k: nat)
    requires k <= |t|
  {
    i < k && t[i].e.Listed? && t[i].e.delivered && forall j | i < j < k :: !t[j].e.Forgotten?
  }

  ghost predicate OnList(t: seq<Beat>, k: nat)
    requires k <= |t|
  {
    exists i :: StillListed(t, i, k)
  }

  lemma OnListAfter(t: seq<Beat>, k: nat, next: nat)
    requires k < |t| && next == k + 1
    ensures OnList(t, next) <==> (t[k].e.Listed? && t[k].e.delivered) || (OnList(t, k) && !t[k].e.Forgotten?)
  {
    if t[k].e.Listed? && t[k].e.delivered {
      assert StillListed(t, k, next);
    } else {
      if i: nat :| StillListed(t, i, k) && !t[k].e.Forgotten? {
        assert StillListed(t, i, next);
      }
      if i: nat :| StillListed(t, i, next) {
        assert StillListed(t, i, k);
      }
    }
  }

  /** That is exactly when the app has a record of it: nothing else puts a session on its list. */
  lemma {:induction false} AppListsExactly(t: seq<Beat>, k: nat)
    requires Plausible(t) && k <= |t|
    ensures AppAt(t, k).Some? <==> OnList(t, k)
  {
    if k > 0 {
      AppListsExactly(t, k - 1);
      OnListAfter(t, k - 1, k);
      assert PlausibleBeat(t[k - 1], PublishedAt(t, k - 1));
    }
  }

  // ----- The last delivery, and what came after it -----

  /** The step gives the app a whole record: a delivered row, or an update for a session it lists. */
  predicate Delivers(t: seq<Beat>, i: nat)
    requires i < |t|
  {
    if t[i].e.Listed? then t[i].e.delivered else AppAt(t, i).Some? && t[i].out.published
  }

  /** The latest step that did, if the app has not forgotten the session since. */
  function LastDelivery(t: seq<Beat>, k: nat): (d: Option<nat>)
    requires k <= |t|
    ensures d.Some? ==> d.value < k && Delivers(t, d.value)
    ensures d.Some? ==> forall i | d.value < i < k :: !Delivers(t, i) && !t[i].e.Forgotten?
  {
    if k == 0 || t[k - 1].e.Forgotten? then None
    else if Delivers(t, k - 1) then Some(k - 1)
    else LastDelivery(t, k - 1)
  }

  /** The latest refresh since then that dropped its reply. */
  function LastDrop(t: seq<Beat>, k: nat): (r: Option<nat>)
    requires k <= |t|
    ensures r.Some? ==> r.value < k && DropsReply(t[r.value].e)
  {
    if k == 0 || t[k - 1].e.Forgotten? || Delivers(t, k - 1) then None
    else if DropsReply(t[k - 1].e) then Some(k - 1)
    else LastDrop(t, k - 1)
  }

  /** The latest ephemeral since then, counting the delivery itself. */
  function LastReport(t: seq<Beat>, k: nat): (l: Option<nat>)
    requires k <= |t|
    ensures l.Some? ==> l.value < k && t[l.value].e.Activity?
  {
    if k == 0 || t[k - 1].e.Forgotten? then None
    else if t[k - 1].e.Activity? then Some(k - 1)
    else if Delivers(t, k - 1) then None
    else LastReport(t, k - 1)
  }

  /** The published record is that of the last dropped refresh, or else of the last delivery. */
  lemma {:induction false} PublishedSince(t: seq<Beat>, k: nat)
    requires Plausible(t) && k <= |t| && AppAt(t, k).Some?
    ensures var d, r := LastDelivery(t, k), LastDrop(t, k);
      && d.Some? && (r.Some? ==> d.value < r.value)
      && PublishedAt(t, k) == t[if r.Some? then r.value else d.value].out.ui
  {
    assert PlausibleBeat(t[k - 1], PublishedAt(t, k - 1));
    if !Delivers(t, k - 1) {
      PublishedSince(t, k - 1);
    }
  }

  function ReportedWorking(t: seq<Beat>, k: nat, otherwise: bool): bool
    requires k <= |t|
  {
    var l := LastReport(t, k);
    if l.Some? then t[l.value].e.active && t[l.value].e.working else otherwise
  }

  /** The app holds the published record with working as the last ephemeral has it. */
  ghost predicate InStep(t: seq<Beat>, k: nat)
    requires k <= |t|
  {
    var held, ui := AppAt(t, k), PublishedAt(t, k);
    && held.Some? && ui.Some?
    && held.value == ui.value.(working := ReportedWorking(t, k, ui.value.working))
    && (ReportedWorking(t, k, false) ==> ui.value.working)
  }

  lemma DeliveryIsInStep(t: seq<Beat>, k: nat, next: nat)
    requires Plausible(t) && k < |t| && next == k + 1 && Delivers(t, k)
    ensures InStep(t, next)
  {
    assert PlausibleBeat(t[k], PublishedAt(t, k));
  }

  lemma SilenceKeepsInStep(t: seq<Beat>, k: nat, next: nat)
    requires Plausible(t) && k < |t| && next == k + 1 && InStep(t, k)
    requires !Delivers(t, k) && !DropsReply(t[k].e) && !t[k].e.Forgotten?
    ensures InStep(t, next)
  {
    assert PlausibleBeat(t[k], PublishedAt(t, k));
  }

  lemma {:induction false} AppKeepsInStep(t: seq<Beat>, k: nat)
    requires Plausible(t) && k <= |t| && AppAt(t, k).Some? && LastDrop(t, k).None?
    ensures InStep(t, k)
  {
    if Delivers(t, k - 1) {
      DeliveryIsInStep(t, k - 1, k);
    } else {
      AppKeepsInStep(t, k - 1);
      SilenceKeepsInStep(t, k - 1, k);
    }
  }

  /** A switch that the published record shows, the app shows too. */
  lemma {:induction false} SwitchingReachesApp(t: seq<Beat>, k: nat)
    requires Plausible(t) && k <= |t| && AppAt(t, k).Some? && ShowsSwitching(PublishedAt(t, k))
    ensures ShowsSwitching(AppAt(t, k))
  {
    assert PlausibleBeat(t[k - 1], PublishedAt(t, k - 1));
    if !Delivers(t, k - 1) {
      SwitchingReachesApp(t, k - 1);
    }
  }

  // ----- When the app shows what is cached -----

  /** The last ephemeral said not working, and the SDK still holds the session to be working. */
  ghost predicate Overruled(t: seq<Beat>, k: nat)
    requires k <= |t|
  {
    !ReportedWorking(t, k, true) && PublishedAt(t, k).Some? && PublishedAt(t, k).value.working
  }

  /**
   A list refresh finds of the session just what this record shows: the socket state and the row's
   active flag, working by the row or the hold, the mark that stands, and who controls the session.
   */
  ghost predicate FindsAsShown(stored: Option<Entry>, e: LocalEvent, ui: SessionUI)
    requires e.Listed?
  {
    var shown := SwitchingShown(e.now, stored);
    var control := if e.row.agentState.Some? then e.row.agentState else ControlOf(stored);
    && ui.connected == e.connected && ui.online == e.row.active
    && ui.working == NextWorking(WorkingOf(stored), e).0
    && ui.switching == shown && ui.transition == (if shown then stored.value.transition else NoTransition)
    && ui.mode == (if !e.row.active then NoMode
      else if shown && stored.value.state != Unset then ModeFromState(stored.value.state)
      else if !e.connected then NoMode
      else if control == Some(false) then RemoteMode
      else LocalMode)
  }

  lemma ListedRecordExactly(stored: Option<Entry>, e: LocalEvent, ui: SessionUI)
    requires e.Listed?
    ensures LocalStep(stored, e).ui == Some(ui) <==> FindsAsShown(stored, e, ui)
  {
  }

  lemma CachedIsPublished(h: seq<LocalEvent>, k: nat)
    requires Timed(h) && k <= |h|
    ensures CachedRecord(StateAt(h, k)) == PublishedAt(TraceOf(h), k)
  {
    EveryStateGood(h, k);
    PublishedIs(h, k);
  }

  /**
   A session that the app lists is shown as it is cached exactly when the last refresh that dropped
   its reply found what is shown, or, where none has since the last delivery, when the working hold
   does not overrule the last ephemeral.
   */
  lemma AppIsCurrentExactly(h: seq<LocalEvent>, k: nat)
    requires Timed(h) && k <= |h| && AppAt(TraceOf(h), k).Some?
    ensures var t, ui := TraceOf(h), AppAt(TraceOf(h), k).value;
      var r := LastDrop(t, k);
      && (r.Some? ==> r.value < |h| && h[r.value] == t[r.value].e)
      && (Some(ui) == CachedRecord(StateAt(h, k)) <==>
        if r.Some? then FindsAsShown(StateAt(h, r.value).entry, t[r.value].e, ui) else !Overruled(t, k))
  {
    var t := TraceOf(h);
    TraceIsPlausible(h);
    CachedIsPublished(h, k);
    if r :| LastDrop(t, k) == Some(r) {
      BeatAt(h, r);
      PublishedSince(t, k);
      ListedRecordExactly(StateAt(h, r).entry, h[r], AppAt(t, k).value);
    } else {
      AppKeepsInStep(t, k);
    }
  }

  /** The records agree in what an ephemeral does not carry. */
  predicate SameBut(held: SessionUI, ui: SessionUI) {
    && held.connected == ui.connected && held.switching == ui.switching && held.transition == ui.transition
    && (ui.online ==> held.mode == ui.mode)
  }

  /**
   After an agent update the app shows the record it computed exactly if it lists the session and was
   sent the record or had it already. After an ephemeral it need only have had what the ephemeral
   does not carry; but not if the working hold overrules the ephemeral.
   */
  lemma ReportIsShownExactly(t: seq<Beat>, k: nat)
    requires Plausible(t) && k < |t| && (t[k].e.Activity? || (t[k].e.AgentStateChanged? && t[k].out.ui.Some?))
    ensures var e, out, held := t[k].e, t[k].out, AppAt(t, k);
      && (e.AgentStateChanged? ==>
        (AppAt(t, k + 1) == out.ui <==> held.Some? && (out.published || held == out.ui)))
      && (e.Activity? ==>
        && out.ui.Some?
        && (AppAt(t, k + 1) == out.ui <==>
          && held.Some? && (out.published || SameBut(held.value, out.ui.value))
          && out.ui.value.working == (e.active && e.working)))
  {
    assert PlausibleBeat(t[k], PublishedAt(t, k));
  }

  // ----- The composer and the gates -----

  /** The composer enables input exactly when the send gate would accept a message. */
  ghost predicate ComposerMatchesGate(ui: SessionUI, fsm: Entry) {
    MakeComposer(Some(ui)).isInputEnabled <==> !ui.switching && SendGateAccepts(fsm)
  }

  /** Control is offered exactly when the session is local and not shown as switching. */
  ghost predicate ControlOfferMatches(ui: SessionUI, fsm: Entry) {
    CanTakeControl(ui) <==> !ui.switching && fsm.state == Local
  }

  predicate EnablesInput(ui: SessionUI) {
    MakeComposer(Some(ui)).isInputEnabled
  }

  /** The record that the app shows enables input when the published one does, or shows a switch. */
  ghost predicate AgreesOnInput(t: seq<Beat>, k: nat)
    requires k <= |t| && AppAt(t, k).Some?
  {
    var ui, r := AppAt(t, k).value, LastDrop(t, k);
    || ui.switching
    || (if r.Some? then t[r.value].out.ui.Some? && EnablesInput(t[r.value].out.ui.value) == EnablesInput(ui)
      else !(Overruled(t, k) && EnablesInput(ui)))
  }

  ghost predicate AgreesOnControl(t: seq<Beat>, k: nat)
    requires k <= |t| && AppAt(t, k).Some?
  {
    var ui, r := AppAt(t, k).value, LastDrop(t, k);
    || ui.switching || r.None?
    || (t[r.value].out.ui.Some? && CanTakeControl(t[r.value].out.ui.value) == CanTakeControl(ui))
  }

  /** A list refresh would have input enabled for a present, idle session that the phone controls and no mark holds. */
  lemma ListedEnablesExactly(stored: Option<Entry>, e: LocalEvent)
    requires e.Listed?
    ensures LocalStep(stored, e).ui.Some?
    ensures EnablesInput(LocalStep(stored, e).ui.value) <==>
      && e.connected && e.row.active && !NextWorking(WorkingOf(stored), e).0
      && !SwitchingShown(e.now, stored) && ControlOf(LocalStep(stored, e).entry) == Some(false)
  {
  }

  lemma AgreesWithPublished(t: seq<Beat>, k: nat)
    requires Plausible(t) && k <= |t| && AppAt(t, k).Some?
    ensures PublishedAt(t, k).Some? && (PublishedAt(t, k).value.switching ==> AppAt(t, k).value.switching)
    ensures var ui, published := AppAt(t, k).value, PublishedAt(t, k).value;
      && (AgreesOnInput(t, k) <==> ui.switching || EnablesInput(published) == EnablesInput(ui))
      && (AgreesOnControl(t, k) <==> ui.switching || CanTakeControl(published) == CanTakeControl(ui))
  {
    PublishedSince(t, k);
    if ShowsSwitching(PublishedAt(t, k)) {
      SwitchingReachesApp(t, k);
    }
    if r :| LastDrop(t, k) == Some(r) {
      assert PlausibleBeat(t[r], PublishedAt(t, r));
    } else {
      AppKeepsInStep(t, k);
    }
  }

  /**
   What the app shows of a session that it lists fits the SDK's gates exactly when it shows a switch,
   or the last dropped refresh computed a record that enables the same, or, where none was dropped
   since the last delivery, the working hold does not overrule an ephemeral that would enable input.
   */
  lemma AppMatchesGatesExactly(h: seq<LocalEvent>, k: nat)
    requires Timed(h) && k <= |h| && AppAt(TraceOf(h), k).Some?
    ensures StateAt(h, k).entry.Some?
    ensures var ui, fsm := AppAt(TraceOf(h), k).value, StateAt(h, k).entry.value;
      && (ComposerMatchesGate(ui, fsm) <==> AgreesOnInput(TraceOf(h), k))
      && (ControlOfferMatches(ui, fsm) <==> AgreesOnControl(TraceOf(h), k))
  {
    TraceIsPlausible(h);
    AgreesWithPublished(TraceOf(h), k);
    PublishedIs(h, k);
    EveryStateGood(h, k);
  }

  /** So for each session that the app lists, after any run of the whole cache. */
  lemma PhoneAgreesWithGate(es: seq<Event>, id: string)
    requires TimedRun(es) && id != "" && Held(AppRun(es), id).Some?
    ensures var t := TraceOf(History(es, id));
      && id in RunFrom(EmptyModel, es).fsm && AppAt(t, |t|) == Held(AppRun(es), id)
      && (ComposerMatchesGate(AppAt(t, |t|).value, RunFrom(EmptyModel, es).fsm[id]) <==> AgreesOnInput(t, |t|))
      && (ControlOfferMatches(AppAt(t, |t|).value, RunFrom(EmptyModel, es).fsm[id]) <==> AgreesOnControl(t, |t|))
  {
    var h := History(es, id);
    RunsHaveTimedHistories(es, id);
    AppRunIsLocal(es, id);
    AppMatchesGatesExactly(h, |h|);
    assert Lookup(RunFrom(EmptyModel, es).fsm, id) == RunFrom(EmptyModel, es).Local(id).entry;
  }

  // ----- An open detail view -----

  /** It shows the app's record, or the one it was opened with once the app no longer lists the session. */
  function Viewed(captured: SessionUI, held: Option<SessionUI>): SessionUI {
    held.GetOr(captured)
  }

  /** Then nothing but a delivered list that holds the session changes what it shows. */
  lemma {:induction false} UnlistedViewIsFrozen(t: seq<Beat>, j: nat, k: nat, captured: SessionUI)
    requires Plausible(t) && j <= k <= |t| && AppAt(t, j).None?
    requires forall i | j <= i < k :: !(t[i].e.Listed? && t[i].e.delivered)
    ensures AppAt(t, k).None? && Viewed(captured, AppAt(t, k)) == captured
  {
    if j < k {
      UnlistedViewIsFrozen(t, j, k - 1, captured);
    }
  }

  /**
   And while no switch is cached it fits the send gate exactly when it shows a switch, or the record it
   was opened with enables what the cached one does.
   */
  lemma UnlistedViewMatchesExactly(h: seq<LocalEvent>, k: nat, captured: SessionUI)
    requires Timed(h) && k <= |h| && StateAt(h, k).entry.Some? && AppAt(TraceOf(h), k).None?
    requires !ShowsSwitching(CachedRecord(StateAt(h, k)))
    ensures CachedRecord(StateAt(h, k)).Some?
    ensures var ui := Viewed(captured, AppAt(TraceOf(h), k));
      ComposerMatchesGate(ui, StateAt(h, k).entry.value) <==>
        captured.switching || EnablesInput(captured) == EnablesInput(CachedRecord(StateAt(h, k)).value)
  {
    EveryStateGood(h, k);
  }

  // ----- Runs in which the app and the gate disagree -----

  lemma OneMore(es: seq<Event>, e: Event, x: LocalEvent, id: string)
    requires id != "" && Share(e, id) == [x]
    ensures var s, out := RunFrom(EmptyModel, es).Local(id), LocalStep(RunFrom(EmptyModel, es).Local(id).entry, x);
      && RunFrom(EmptyModel, es + [e]).Local(id) == s.Take(out)
      && Held(AppRun(es + [e]), id) == Heard(Held(AppRun(es), id), out, x)
  {
    var m := RunFrom(EmptyModel, es);
    assert (es + [e])[..|es|] == es;
    StepActsLocally(m, e, id);
    AppActsLocally(AppRun(es), m, e, id);
    assert Lookup(m.fsm, id) == m.Local(id).entry;
  }

  /** The app lists the session, and enables input that the send gate would refuse. */
  ghost predicate Misled(es: seq<Event>, id: string) {
    var held, entry := Held(AppRun(es), id), RunFrom(EmptyModel, es).Local(id).entry;
    held.Some? && entry.Some? && EnablesInput(held.value) && !SendGateAccepts(entry.value)
  }

  ghost predicate RemoteOnce(s: LocalState, working: bool) {
    && s.entry.Some? && s.entry.value.state == Remote && s.entry.value.connected && s.entry.value.online
    && !s.entry.value.controlledByUser && !s.entry.value.switching
    && s.entry.value.working == working && (working ==> s.entry.value.workingAt == 1)
    && s.entry.value.uiJSON == s.published == Some(SessionUI(true, true, working, RemoteMode, false, NoTransition))
  }

  /** A remote session, idle or working, in a list that the app gets. */
  lemma ListedOnce(id: string, working: bool) returns (es: seq<Event>)
    requires id != ""
    ensures TimedRun(es) && |es| == 1 && EventNow(es[0]) == 1 && es[0].Refreshed? && es[0].delivered
    ensures RemoteOnce(RunFrom(EmptyModel, es).Local(id), working)
    ensures Held(AppRun(es), id) == RunFrom(EmptyModel, es).Local(id).published
  {
    var row := ListedSession(id, true, working, Some(false), 1);
    var e, x := Refreshed(1, true, [row], true), Listed(1, true, row, true);
    assert LastRow([row], id) == Some(row);
    OneMore([], e, x, id);
    es := [] + [e];
  }

  lemma TimedGrows(es: seq<Event>, e: Event)
    requires TimedRun(es) && es != [] && EventNow(es[|es| - 1]) <= EventBegin(e) == EventNow(e)
    ensures TimedRun(es + [e])
  {
    var all, n := es + [e], |es|;
    assert 0 < EventBegin(es[n - 1]) <= EventNow(es[n - 1]);
    forall i, j | 0 <= i < j < |all|
      ensures EventNow(all[i]) <= EventBegin(all[j])
    {
      assert i < n - 1 ==> EventNow(es[i]) <= EventBegin(es[n - 1]);
    }
  }

  lemma BusyRefresh(s: LocalState, row: ListedSession)
    requires RemoteOnce(s, false) && row.active && row.working && row.agentState == Some(false)
    ensures var after := s.After(Listed(2, true, row, false));
      RemoteOnce(after.(entry := Some(after.entry.value.(workingAt := 1))), true)
  {
  }

  lemma SilentAgentUpdate(s: LocalState)
    requires RemoteOnce(s.(entry := Some(s.entry.GetOr(Entry.Zero).(workingAt := 1))), true)
    ensures var out := LocalStep(s.entry, AgentStateChanged(3, Some(true), Some(false)));
      !out.published && out.entry.Some? && out.entry.value.working
  {
  }

  /**
   An internal refresh finds the session working and drops its reply; the agent update after it finds
   nothing new to send.
   */
  lemma DroppedReplyMisleadsApp(id: string) returns (es: seq<Event>)
    requires id != ""
    ensures TimedRun(es) && |es| == 3 && es[1].Refreshed? && !es[1].delivered && es[2].Session?
    ensures Misled(es, id)
  {
    es := ListedOnce(id, false);
    var busy := ListedSession(id, true, true, Some(false), 2);
    var b, x := Refreshed(2, true, [busy], false), Listed(2, true, busy, false);
    assert LastRow([busy], id) == Some(busy);
    OneMore(es, b, x, id);
    BusyRefresh(RunFrom(EmptyModel, es).Local(id), busy);
    TimedGrows(es, b);
    es := es + [b];
    var c := Session(id, AgentStateChanged(3, Some(true), Some(false)));
    OneMore(es, c, c.step, id);
    SilentAgentUpdate(RunFrom(EmptyModel, es).Local(id));
    TimedGrows(es, c);
    es := es + [c];
  }

  lemma OverruledReport(s: LocalState)
    requires RemoteOnce(s, true)
    ensures var out := LocalStep(s.entry, Activity(2, Some(true), true, false));
      !out.published && out.entry.Some? && out.entry.value.working
  {
  }

  /** The ephemeral within the working hold: the SDK overrules it and the app does not. */
  lemma HoldMisleadsApp(id: string) returns (es: seq<Event>)
    requires id != ""
    ensures TimedRun(es) && |es| == 2 && es[1].Session? && es[1].step.Activity?
    ensures Misled(es, id)
  {
    es := ListedOnce(id, true);
    var b := Session(id, Activity(2, Some(true), true, false));
    OneMore(es, b, b.step, id);
    OverruledReport(RunFrom(EmptyModel, es).Local(id));
    TimedGrows(es, b);
    es := es + [b];
  }

  lemma WorkingReport(s: LocalState)
    requires s.entry.Some?
    ensures var out := LocalStep(s.entry, Activity(3, Some(true), true, true));
      out.entry.Some? && out.entry.value.working
  {
  }

  /**
   A delivered list omits the session, and the update that it is working again is thrown away. A
   detail view opened before shows it idle and enables input, though no reply was dropped.
   */
  lemma OmissionMisleadsView(id: string) returns (es: seq<Event>)
    requires id != ""
    ensures TimedRun(es) && |es| == 3 && forall e <- es :: e.Refreshed? ==> e.delivered
    ensures var captured, entry := Held(AppRun(es[..1]), id), RunFrom(EmptyModel, es).Local(id).entry;
      && captured.Some? && entry.Some? && Held(AppRun(es), id).None?
      && EnablesInput(Viewed(captured.value, Held(AppRun(es), id))) && !SendGateAccepts(entry.value)
  {
    var a := ListedOnce(id, false);
    var b, x := Refreshed(2, true, [], true), Forgotten(2);
    OneMore(a, b, x, id);
    TimedGrows(a, b);
    var c := Session(id, Activity(3, Some(true), true, true));
    OneMore(a + [b], c, c.step, id);
    WorkingReport(RunFrom(EmptyModel, a + [b]).Local(id));
    TimedGrows(a + [b], c);
    es := a + [b] + [c];
    assert es[..1] == a;
  }

  /** An ephemeral for a session that was never listed: the SDK sends its record, and the app has none. */
  lemma UnlistedReportIsLost(id: string, now: int, active: bool, working: bool)
    requires id != ""
    ensures var e := Session(id, Activity(now, Some(true), active, working));
      && Updates(EmptyModel, e) != [] && id in RunFrom(EmptyModel, [e]).fsm
      && Held(AppRun([e]), id).None?
  {
    var e := Session(id, Activity(now, Some(true), active, working));
    OneMore([], e, e.step, id);
    assert [] + [e] == [e];
    assert RunFrom(EmptyModel, [e]).Local(id).entry.Some?;
  }
}
