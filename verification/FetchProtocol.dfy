/**
 Selecting a session and fetching its transcript pages (selectSession, fetchLatestMessages,
 fetchOlderMessages, applyMessagesResponse, clearSessionState).

 Blocks waiting on the main queue and requests without an answer yet are part of the state; steps
 may take them in any order. A page's decoded rows arrive with the reply.
 */
module FetchProtocol {
  import opened Common
  import opened Messages
  import opened Squash
  import opened Merge

  /** Latest and Older go to the server; Disk is the page kept from an earlier launch. */
  datatype Kind = Latest(reset: bool) | Older | Disk

  datatype Request = Request(kind: Kind, session: string, generation: nat)

  datatype CachedTranscript = CachedTranscript(messages: seq<Row>, hasMoreHistory: bool, oldestLoadedSeq: Option<int>)

  datatype Page = Page(rows: seq<Row>, hasMore: bool)

  datatype View = View(
    sessionID: string, shown: CachedTranscript, generation: nat,
    isLoadingLatest: bool, isLoadingHistory: bool, cache: map<string, CachedTranscript>,
    queued: seq<bool>, inFlight: multiset<Request>)
  {
    predicate Current(req: Request) {
      req.session == sessionID && req.generation == generation
    }
  }

  const NothingShown := CachedTranscript([], false, None)

  const InitialView := View("", NothingShown, 0, false, false, map[], [], multiset{})

  datatype Action =
    | Select(id: string, onDisk: bool)
    | QueueLatest(reset: bool)
    | RunLatest
    | FetchOlder
    | Reply(req: Request, page: Page)
    | Fail(req: Request)
    | Clear

  function MinSeq(rows: seq<Row>): Option<int> {
    if rows == [] then None
    else
      var rest := MinSeq(rows[1..]);
      if rows[0].seqNo.None? then rest
      else if rest.None? || rows[0].seqNo.value <= rest.value then rows[0].seqNo
      else rest
  }

  /** A block runs, and a request is answered, only if it is waiting. */
  predicate Enabled(v: View, a: Action) {
    match a
    case RunLatest => v.queued != []
    case Reply(req, _) => req in v.inFlight
    case Fail(req) => req in v.inFlight && !req.kind.Disk?
    case _ => true
  }

  function SelectStep(v: View, id: string, onDisk: bool): View {
    var known := id in v.cache;
    View(id, if known then v.cache[id] else NothingShown, v.generation + 1, true, false, v.cache,
      v.queued + [true],
      if !known && onDisk then v.inFlight + multiset{Request(Disk, id, v.generation + 1)} else v.inFlight)
  }

  function RunLatestStep(v: View): View
    requires v.queued != []
  {
    if v.sessionID == "" then v.(queued := v.queued[1..])
    else
      var reset := v.queued[0];
      var generation := if reset then v.generation + 1 else v.generation;
      View(v.sessionID, v.shown, generation, true, !reset && v.isLoadingHistory, v.cache,
        v.queued[1..],
        v.inFlight + multiset{Request(Latest(reset), v.sessionID, generation)})
  }

  function FetchOlderStep(v: View): View {
    if v.sessionID == "" || !v.shown.hasMoreHistory || v.isLoadingHistory then v
    else if v.shown.oldestLoadedSeq.GetOr(0) <= 0 then v
    else v.(isLoadingHistory := true, inFlight := v.inFlight + multiset{Request(Older, v.sessionID, v.generation)})
  }

  ghost function PageShown(messages: seq<Row>, kind: Kind, page: Page): CachedTranscript {
    var rows := if kind.Older? || kind == Latest(false) then Merged(messages, page.rows) else page.rows;
    CachedTranscript(rows, page.hasMore, MinSeq(rows))
  }

  ghost function ReplyStep(v: View, req: Request, page: Page): View {
    var waiting := v.inFlight - multiset{req};
    if !v.Current(req) then v.(inFlight := waiting)
    else
      var shown := PageShown(v.shown.messages, req.kind, page);
      View(v.sessionID, shown, v.generation,
        v.isLoadingLatest && !req.kind.Latest?, v.isLoadingHistory && !req.kind.Older?,
        if v.sessionID == "" then v.cache else v.cache[v.sessionID := shown],
        v.queued, waiting)
  }

  /** The handler of a failed history fetch has no guard, unlike the one of a latest fetch. */
  function FailStep(v: View, req: Request): View {
    v.(inFlight := v.inFlight - multiset{req},
      isLoadingLatest := v.isLoadingLatest && !(req.kind.Latest? && v.Current(req)),
      isLoadingHistory := v.isLoadingHistory && !req.kind.Older?)
  }

  /** Clearing forgets neither the cache, nor the generation, nor the spinners. */
  function ClearStep(v: View): View {
    v.(sessionID := "", shown := v.shown.(messages := [], oldestLoadedSeq := None))
  }

  /** An action that is not enabled does nothing, so every sequence of actions is a run. */
  ghost function Step(v: View, a: Action): View {
    if !Enabled(v, a) then v else
    match a
    case Select(id, onDisk) => SelectStep(v, id, onDisk)
    case QueueLatest(reset) => v.(queued := v.queued + [reset])
    case RunLatest => RunLatestStep(v)
    case FetchOlder => FetchOlderStep(v)
    case Reply(req, page) => ReplyStep(v, req, page)
    case Fail(req) => FailStep(v, req)
    case Clear => ClearStep(v)
  }

  class ViewModel {
    var sessionID: string
    var messages: seq<Row>
    var hasMoreHistory: bool
    var oldestLoadedSeq: Option<int>
    var messagesFetchGeneration: nat
    var isLoadingLatest: bool
    var isLoadingHistory: bool
    var transcriptCache: map<string, CachedTranscript>
    var queued: seq<bool>
    var inFlight: multiset<Request>

    ghost function Shown(): CachedTranscript
      reads this
    {
      CachedTranscript(messages, hasMoreHistory, oldestLoadedSeq)
    }

    ghost function Snapshot(): View
      reads this
    {
      View(sessionID, Shown(), messagesFetchGeneration, isLoadingLatest, isLoadingHistory, transcriptCache,
        queued, inFlight)
    }

    constructor ()
      ensures Snapshot() == InitialView
    {
      sessionID, messages, hasMoreHistory, oldestLoadedSeq, messagesFetchGeneration := "", [], false, None, 0;
      isLoadingLatest, isLoadingHistory, transcriptCache := false, false, map[];
      queued, inFlight := [], multiset{};
    }

    method SelectSession(id: string, onDisk: bool)
      modifies this
      ensures Snapshot() == SelectStep(old(Snapshot()), id, onDisk)
    {
      sessionID := id;
      messagesFetchGeneration := messagesFetchGeneration + 1;
      isLoadingLatest := true;
      isLoadingHistory := false;
      ShowCached(id, onDisk);
      FetchLatestMessages(true);
      SelectIsStep(onDisk);
    }

    twostate lemma SelectIsStep(onDisk: bool)
      requires messagesFetchGeneration == old(messagesFetchGeneration) + 1
      requires isLoadingLatest && !isLoadingHistory
      requires transcriptCache == old(transcriptCache) && queued == old(queued) + [true]
      requires Shown() == if sessionID in transcriptCache then transcriptCache[sessionID] else NothingShown
      requires inFlight == if sessionID !in transcriptCache && onDisk
        then old(inFlight) + multiset{Request(Disk, sessionID, messagesFetchGeneration)} else old(inFlight)
      ensures Snapshot() == SelectStep(old(Snapshot()), sessionID, onDisk)
    {
    }

    /** The transcript kept from the last visit, or else the page on disk once it is decoded. */
    method ShowCached(id: string, onDisk: bool)
      modifies this`messages, this`hasMoreHistory, this`oldestLoadedSeq, this`inFlight
      ensures Shown() == if id in transcriptCache then transcriptCache[id] else NothingShown
      ensures inFlight == if id !in transcriptCache && onDisk
        then old(inFlight) + multiset{Request(Disk, id, messagesFetchGeneration)} else old(inFlight)
    {
      if id in transcriptCache {
        var cached := transcriptCache[id];
        messages := cached.messages;
        hasMoreHistory := cached.hasMoreHistory;
        oldestLoadedSeq := cached.oldestLoadedSeq;
      } else {
        messages := [];
        hasMoreHistory := false;
        oldestLoadedSeq := None;
        if onDisk {
          inFlight := inFlight + multiset{Request(Disk, id, messagesFetchGeneration)};
        }
      }
    }

    method FetchLatestMessages(reset: bool)
      modifies this`queued
      ensures queued == old(queued) + [reset]
    {
      queued := queued + [reset];
    }

    /** The oldest main-queue block of fetchLatestMessages. */
    method RunFetchLatest()
      requires queued != []
      modifies this`queued, this`messagesFetchGeneration, this`isLoadingHistory, this`isLoadingLatest, this`inFlight
      ensures Snapshot() == RunLatestStep(old(Snapshot()))
    {
      var reset := queued[0];
      queued := queued[1..];
      if sessionID == "" { return; }
      if reset {
        messagesFetchGeneration := messagesFetchGeneration + 1;
        isLoadingHistory := false;
      }
      isLoadingLatest := true;
      inFlight := inFlight + multiset{Request(Latest(reset), sessionID, messagesFetchGeneration)};
      RunLatestIsStep();
    }

    twostate lemma RunLatestIsStep()
      requires old(queued) != [] && queued == old(queued)[1..] && sessionID == old(sessionID) != ""
      requires messagesFetchGeneration == old(messagesFetchGeneration) + (if old(queued)[0] then 1 else 0)
      requires isLoadingLatest && isLoadingHistory == (!old(queued)[0] && old(isLoadingHistory))
      requires transcriptCache == old(transcriptCache) && Shown() == old(Shown())
      requires inFlight == old(inFlight) + multiset{Request(Latest(old(queued)[0]), sessionID, messagesFetchGeneration)}
      ensures Snapshot() == RunLatestStep(old(Snapshot()))
    {
    }

    method FetchOlderMessages()
      modifies this`isLoadingHistory, this`inFlight
      ensures Snapshot() == FetchOlderStep(old(Snapshot()))
    {
      if sessionID == "" || !hasMoreHistory || isLoadingHistory { return; }
      if oldestLoadedSeq.None? || oldestLoadedSeq.value <= 0 { return; }
      isLoadingHistory := true;
      inFlight := inFlight + multiset{Request(Older, sessionID, messagesFetchGeneration)};
    }

    method ApplyMessagesResponse(req: Request, page: Page)
      requires req in inFlight
      modifies this
      ensures Snapshot() == ReplyStep(old(Snapshot()), req, page)
    {
      inFlight := inFlight - multiset{req};
      if sessionID != req.session { return; }
      if messagesFetchGeneration != req.generation { return; }
      ShowPage(req.kind, page);
      if req.kind.Latest? { isLoadingLatest := false; }
      if req.kind.Older? { isLoadingHistory := false; }
      ReplyIsStep(Reply(req, page));
    }

    twostate lemma ReplyIsStep(reply: Action)
      requires reply.Reply? && old(Snapshot()).Current(reply.req)
      requires sessionID == old(sessionID) && messagesFetchGeneration == old(messagesFetchGeneration)
      requires queued == old(queued) && inFlight == old(inFlight) - multiset{reply.req}
      requires Shown() == PageShown(old(messages), reply.req.kind, reply.page)
      requires transcriptCache ==
        if sessionID == "" then old(transcriptCache) else old(transcriptCache)[sessionID := Shown()]
      requires isLoadingLatest == (old(isLoadingLatest) && !reply.req.kind.Latest?)
      requires isLoadingHistory == (old(isLoadingHistory) && !reply.req.kind.Older?)
      ensures Snapshot() == ReplyStep(old(Snapshot()), reply.req, reply.page)
    {
    }

    /** Replace or merge the rows, then keep the result as this session's transcript. */
    method ShowPage(kind: Kind, page: Page)
      modifies this`messages, this`hasMoreHistory, this`oldestLoadedSeq, this`transcriptCache
      ensures Shown() == PageShown(old(messages), kind, page)
      ensures transcriptCache ==
        if sessionID == "" then old(transcriptCache) else old(transcriptCache)[sessionID := Shown()]
    {
      if kind.Disk? || kind == Latest(true) {
        messages := page.rows;
      } else {
        messages := MergeMessages(messages, page.rows);
      }
      oldestLoadedSeq := MinSeq(messages);
      hasMoreHistory := page.hasMore;
      if sessionID != "" {
        transcriptCache := transcriptCache[sessionID := CachedTranscript(messages, hasMoreHistory, oldestLoadedSeq)];
      }
    }

    method HandleFetchError(req: Request)
      requires req in inFlight && !req.kind.Disk?
      modifies this`inFlight, this`isLoadingLatest, this`isLoadingHistory
      ensures Snapshot() == FailStep(old(Snapshot()), req)
    {
      inFlight := inFlight - multiset{req};
      if req.kind.Older? {
        isLoadingHistory := false;
        return;
      }
      if sessionID != req.session { return; }
      if messagesFetchGeneration != req.generation { return; }
      isLoadingLatest := false;
    }

    method ClearSessionState()
      modifies this`sessionID, this`messages, this`oldestLoadedSeq
      ensures Snapshot() == ClearStep(old(Snapshot()))
    {
      sessionID := "";
      messages := [];
      oldestLoadedSeq := None;
    }
  }

  // ----- Runs -----

  ghost function Run(actions: seq<Action>): View {
    if actions == [] then InitialView else Step(Run(actions[..|actions| - 1]), actions[|actions| - 1])
  }

  // ----- Session purity -----

  /** Every reply holds rows of the session it was requested for; `owns` says which rows those are. */
  ghost predicate HonestReply(a: Action, owns: (string, Row) -> bool) {
    a.Reply? ==> forall r <- a.page.rows :: owns(a.req.session, r)
  }

  ghost predicate Pure(v: View, owns: (string, Row) -> bool) {
    && (forall r <- v.shown.messages :: owns(v.sessionID, r))
    && (forall id <- v.cache, r <- v.cache[id].messages :: owns(id, r))
  }

  lemma StepKeepsPure(v: View, a: Action, owns: (string, Row) -> bool)
    requires Pure(v, owns) && HonestReply(a, owns)
    ensures Pure(Step(v, a), owns)
  {
    if a.Reply? && v.Current(a.req) {
      forall r | r in Merged(v.shown.messages, a.page.rows)
        ensures owns(v.sessionID, r)
      {
        MergeInventsNothing(v.shown.messages, a.page.rows, r);
      }
    }
  }

  /** However sessions own their rows, no page row ever shows, or is cached, under another session. */
  lemma {:induction false} EveryViewPure(actions: seq<Action>, owns: (string, Row) -> bool)
    requires forall a <- actions :: HonestReply(a, owns)
    ensures Pure(Run(actions), owns)
  {
    if actions != [] {
      EveryViewPure(actions[..|actions| - 1], owns);
      StepKeepsPure(Run(actions[..|actions| - 1]), actions[|actions| - 1], owns);
    }
  }

  // ----- Spinners -----

  ghost predicate LatestPending(v: View) {
    || true in v.queued
    || Request(Latest(true), v.sessionID, v.generation) in v.inFlight
    || Request(Latest(false), v.sessionID, v.generation) in v.inFlight
  }

  ghost predicate SpinnersBacked(v: View) {
    v.sessionID != "" ==>
      && (v.isLoadingLatest ==> LatestPending(v))
      && (v.isLoadingHistory ==> Request(Older, v.sessionID, v.generation) in v.inFlight)
  }

  ghost predicate GenerationsBounded(v: View) {
    forall req <- v.inFlight :: req.generation <= v.generation
  }

  ghost predicate Backed(v: View) {
    SpinnersBacked(v) && GenerationsBounded(v)
  }

  lemma SelectKeepsBacked(v: View, id: string, onDisk: bool)
    requires Backed(v)
    ensures Backed(SelectStep(v, id, onDisk))
  {
  }

  lemma RunLatestKeepsBacked(v: View)
    requires Backed(v) && v.queued != []
    ensures Backed(RunLatestStep(v))
  {
  }

  lemma FetchOlderKeepsBacked(v: View)
    requires Backed(v)
    ensures Backed(FetchOlderStep(v))
  {
  }

  lemma ReplyKeepsBacked(v: View, req: Request, page: Page)
    requires Backed(v) && req in v.inFlight
    ensures Backed(ReplyStep(v, req, page))
  {
  }

  lemma FailKeepsBacked(v: View, req: Request)
    requires Backed(v) && req in v.inFlight
    ensures Backed(FailStep(v, req))
  {
  }

  lemma StepKeepsBacked(v: View, a: Action)
    requires Backed(v)
    ensures Backed(Step(v, a)) && v.generation <= Step(v, a).generation
  {
    if Enabled(v, a) {
      match a
      case Select(id, onDisk) => SelectKeepsBacked(v, id, onDisk);
      case QueueLatest(reset) =>
      case RunLatest => RunLatestKeepsBacked(v);
      case FetchOlder => FetchOlderKeepsBacked(v);
      case Reply(req, page) => ReplyKeepsBacked(v, req, page);
      case Fail(req) => FailKeepsBacked(v, req);
      case Clear =>
    }
  }

  /**
   While a session is selected, a spinner is on only if something that will answer for it is
   waiting: a request of this session and generation, or, for the latest page, a queued reset.
   */
  lemma {:induction false} EverySpinnerBacked(actions: seq<Action>)
    ensures Backed(Run(actions))
  {
    if actions != [] {
      EverySpinnerBacked(actions[..|actions| - 1]);
      StepKeepsBacked(Run(actions[..|actions| - 1]), actions[|actions| - 1]);
    }
  }

  /** When nothing is waiting any more, no spinner is left on. */
  lemma SpinnersCannotStick(actions: seq<Action>)
    requires Run(actions).sessionID != ""
    requires Run(actions).queued == [] && Run(actions).inFlight == multiset{}
    ensures !Run(actions).isLoadingLatest && !Run(actions).isLoadingHistory
  {
    EverySpinnerBacked(actions);
  }

  // ----- A spinner for every request -----

  predicate SameSpinner(a: Kind, b: Kind) {
    (a.Latest? && b.Latest?) || (a.Older? && b.Older?)
  }

  ghost predicate Awaits(v: View, waiting: multiset<Request>, kind: Kind) {
    exists req <- waiting :: v.Current(req) && SameSpinner(req.kind, kind)
  }

  /** The converse of SpinnersBacked: while a session is selected, each current request has its spinner on. */
  ghost predicate RequestsShown(v: View) {
    v.sessionID != "" ==>
      && (Awaits(v, v.inFlight, Latest(true)) ==> v.isLoadingLatest)
      && (Awaits(v, v.inFlight, Older) ==> v.isLoadingHistory)
  }

  /** The action turns off the spinner that its request lit. */
  predicate TurnsOff(v: View, a: Action) {
    || (a.Reply? && !a.req.kind.Disk? && v.Current(a.req))
    || (a.Fail? && (a.req.kind.Older? || (a.req.kind.Latest? && v.Current(a.req))))
  }

  /** It does so while another current request of that kind is still waiting. */
  ghost predicate HidesAnother(v: View, a: Action) {
    v.sessionID != "" && Enabled(v, a) && TurnsOff(v, a) && Awaits(v, v.inFlight - multiset{a.req}, a.req.kind)
  }

  lemma AnswerTurnsOff(v: View, a: Action)
    requires Enabled(v, a) && (a.Reply? || a.Fail?)
    ensures var w := Step(v, a);
      && w.inFlight == v.inFlight - multiset{a.req} && w.sessionID == v.sessionID && w.generation == v.generation
      && (a.Fail? || !v.Current(a.req) ==> w.shown == v.shown && w.cache == v.cache && w.queued == v.queued)
      && w.isLoadingLatest == (v.isLoadingLatest && !(a.req.kind.Latest? && TurnsOff(v, a)))
      && w.isLoadingHistory == (v.isLoadingHistory && !(a.req.kind.Older? && TurnsOff(v, a)))
  {
  }

  lemma AwaitsDepends(v: View, w: View, waiting: multiset<Request>, kind: Kind)
    requires w.sessionID == v.sessionID && w.generation == v.generation
    ensures Awaits(w, waiting, kind) == Awaits(v, waiting, kind)
  {
    assert forall req: Request :: w.Current(req) == v.Current(req);
  }

  lemma AwaitsLess(v: View, req: Request, kind: Kind)
    requires Awaits(v, v.inFlight - multiset{req}, kind)
    ensures Awaits(v, v.inFlight, kind)
  {
    assert forall other <- v.inFlight - multiset{req} :: other in v.inFlight;
  }

  lemma AnswerHidesExactly(v: View, a: Action)
    requires RequestsShown(v) && Enabled(v, a) && (a.Reply? || a.Fail?)
    ensures RequestsShown(Step(v, a)) <==> !HidesAnother(v, a)
  {
    var w, left := Step(v, a), v.inFlight - multiset{a.req};
    AnswerTurnsOff(v, a);
    AwaitsDepends(v, w, left, Latest(true));
    AwaitsDepends(v, w, left, Older);
    if Awaits(v, left, Latest(true)) {
      AwaitsLess(v, a.req, Latest(true));
    }
    if Awaits(v, left, Older) {
      AwaitsLess(v, a.req, Older);
    }
    if a.req.kind.Latest? {
      assert Awaits(v, left, a.req.kind) == Awaits(v, left, Latest(true));
    }
  }

  lemma OtherActionsHideNothing(v: View, a: Action)
    requires RequestsShown(v) && Backed(v) && !a.Reply? && !a.Fail?
    ensures RequestsShown(Step(v, a))
  {
  }

  /**
   From any state where it holds, an action keeps it exactly when it does not turn a spinner off under
   another current request: as the failure of a history fetch, stale or not, may while another one is
   waiting, or the answer to one of two current fetches of a kind.
   */
  lemma StepHidesExactly(v: View, a: Action)
    requires RequestsShown(v) && Backed(v)
    ensures RequestsShown(Step(v, a)) <==> !HidesAnother(v, a)
  {
    if Enabled(v, a) && (a.Reply? || a.Fail?) {
      AnswerHidesExactly(v, a);
    } else if Enabled(v, a) {
      OtherActionsHideNothing(v, a);
    }
  }

  /** It holds after every prefix of the run. */
  ghost predicate ShownThroughout(actions: seq<Action>) {
    RequestsShown(Run(actions)) && (actions != [] ==> ShownThroughout(actions[..|actions| - 1]))
  }

  ghost predicate NeverHides(actions: seq<Action>) {
    actions != [] ==>
      && NeverHides(actions[..|actions| - 1])
      && !HidesAnother(Run(actions[..|actions| - 1]), actions[|actions| - 1])
  }

  /** It holds all along a run exactly when no action of the run does that. */
  lemma {:induction false} RequestsShownExactly(actions: seq<Action>)
    ensures ShownThroughout(actions) <==> NeverHides(actions)
  {
    if actions != [] {
      var init := actions[..|actions| - 1];
      RequestsShownExactly(init);
      EverySpinnerBacked(init);
      if ShownThroughout(init) {
        StepHidesExactly(Run(init), actions[|actions| - 1]);
      }
    }
  }

  /** A current request is in flight, and its spinner is off. */
  ghost predicate HidesRequest(v: View, req: Request) {
    && v.sessionID != "" && v.Current(req) && req in v.inFlight
    && !(if req.kind.Latest? then v.isLoadingLatest else v.isLoadingHistory)
  }

  lemma RunSnoc(actions: seq<Action>, a: Action)
    ensures Run(actions + [a]) == Step(Run(actions), a)
  {
    assert (actions + [a])[..|actions|] == actions;
  }

  /** A session is selected and its reset fetch has started. */
  lemma Opened(id: string) returns (actions: seq<Action>)
    requires id != ""
    ensures forall a <- actions :: !a.Fail?
    ensures Run(actions) == View(id, NothingShown, 2, true, false, map[], [], multiset{Request(Latest(true), id, 2)})
  {
    actions := [];
    RunSnoc(actions, Select(id, false));
    actions := actions + [Select(id, false)];
    assert Run(actions) == View(id, NothingShown, 1, true, false, map[], [true], multiset{});
    RunSnoc(actions, RunLatest);
    actions := actions + [RunLatest];
  }

  /** After a send, the merging fetch runs beside the reset that is still loading, and the reset's page comes first. */
  lemma AnsweredResetHidesFetch(id: string, page: Page) returns (actions: seq<Action>)
    requires id != ""
    ensures forall a <- actions :: !a.Fail?
    ensures HidesRequest(Run(actions), Request(Latest(false), id, 2))
  {
    actions := Opened(id);
    RunSnoc(actions, QueueLatest(false));
    actions := actions + [QueueLatest(false)];
    RunSnoc(actions, RunLatest);
    actions := actions + [RunLatest];
    var reply := Reply(Request(Latest(true), id, 2), page);
    RunSnoc(actions, reply);
    actions := actions + [reply];
  }

  /** A history fetch from before a session was selected again fails while the new one is waiting. */
  lemma StaleFailureHidesFetch(id: string, page: Page) returns (actions: seq<Action>)
    requires id != "" && page.hasMore && MinSeq(page.rows).GetOr(0) > 0
    ensures HidesRequest(Run(actions), Request(Older, id, 4))
  {
    actions := OpenedAgain(id, page);
    RunSnoc(actions, Fail(Request(Older, id, 2)));
    actions := actions + [Fail(Request(Older, id, 2))];
  }

  lemma OpenedAgain(id: string, page: Page) returns (actions: seq<Action>)
    requires id != "" && page.hasMore && MinSeq(page.rows).GetOr(0) > 0
    ensures var v := Run(actions);
      && v.sessionID == id && v.generation == 4
      && Request(Older, id, 2) in v.inFlight && Request(Older, id, 4) in v.inFlight
  {
    actions := OpenedWithHistory(id, page);
    var v := Run(actions);
    RunSnoc(actions, Select(id, false));
    actions := actions + [Select(id, false)];
    RunSnoc(actions, RunLatest);
    actions := actions + [RunLatest];
    RunSnoc(actions, FetchOlder);
    actions := actions + [FetchOlder];
    assert Run(actions) == FetchOlderStep(RunLatestStep(SelectStep(v, id, false)));
  }

  lemma OpenedWithHistory(id: string, page: Page) returns (actions: seq<Action>)
    requires id != "" && page.hasMore && MinSeq(page.rows).GetOr(0) > 0
    ensures var shown := CachedTranscript(page.rows, true, MinSeq(page.rows));
      Run(actions) == View(id, shown, 2, false, true, map[id := shown], [], multiset{Request(Older, id, 2)})
  {
    var shown := CachedTranscript(page.rows, true, MinSeq(page.rows));
    actions := Opened(id);
    AnsweredReset(Run(actions), id, page);
    var reply := Reply(Request(Latest(true), id, 2), page);
    RunSnoc(actions, reply);
    actions := actions + [reply];
    RunSnoc(actions, FetchOlder);
    actions := actions + [FetchOlder];
  }

  lemma AnsweredReset(v: View, id: string, page: Page)
    requires v == View(id, NothingShown, 2, true, false, map[], [], multiset{Request(Latest(true), id, 2)}) && id != ""
    ensures var shown := CachedTranscript(page.rows, page.hasMore, MinSeq(page.rows));
      Step(v, Reply(Request(Latest(true), id, 2), page))
        == View(id, shown, 2, false, false, map[id := shown], [], multiset{})
  {
    assert v.inFlight - multiset{Request(Latest(true), id, 2)} == multiset{};
  }

  // ----- Stale replies -----

  lemma {:induction false} GenerationNeverFalls(actions: seq<Action>, later: seq<Action>)
    ensures Run(actions).generation <= Run(actions + later).generation
  {
    if later == [] {
      assert actions + later == actions;
    } else {
      var init := later[..|later| - 1];
      assert (actions + later)[..|actions + later| - 1] == actions + init;
      GenerationNeverFalls(actions, init);
      EverySpinnerBacked(actions + init);
      StepKeepsBacked(Run(actions + init), later[|later| - 1]);
    }
  }

  /**
   A request that was waiting when a session was selected, or when a reset began, can never again
   change the rows, the cache or the latest spinner, even once its session is selected again.
   */
  lemma StaleReplyIgnored(before: seq<Action>, reset: Action, later: seq<Action>, req: Request, page: Page)
    requires reset.Select? || (reset.RunLatest? && [true] <= Run(before).queued && Run(before).sessionID != "")
    requires req in Run(before).inFlight
    ensures var v := Run(before + [reset] + later);
      ReplyStep(v, req, page) == v.(inFlight := v.inFlight - multiset{req})
  {
    GenerationNeverFalls(before + [reset], later);
    assert (before + [reset])[..|before|] == before;
    EverySpinnerBacked(before);
    assert Run(before + [reset]) == Step(Run(before), reset);
  }

  // ----- A selection is answered -----

  /** A reset fetch for the selected session is queued, or its request is waiting. */
  ghost predicate ResetPending(v: View) {
    true in v.queued || Request(Latest(true), v.sessionID, v.generation) in v.inFlight
  }

  /** The action leaves the selection alone, and does not answer the current reset fetch. */
  predicate LeavesPending(v: View, a: Action) {
    !a.Select? && !a.Clear? && !((a.Reply? || a.Fail?) && a.req.kind == Latest(true) && v.Current(a.req))
  }

  ghost predicate AllLeavePending(base: seq<Action>, later: seq<Action>) {
    later != [] ==>
      && AllLeavePending(base, later[..|later| - 1])
      && LeavesPending(Run(base + later[..|later| - 1]), later[|later| - 1])
  }

  lemma StepLeavesPending(v: View, a: Action)
    requires v.sessionID != "" && ResetPending(v) && LeavesPending(v, a)
    ensures Step(v, a).sessionID == v.sessionID && ResetPending(Step(v, a))
  {
    if a == RunLatest && v.queued != [] {
      assert v.queued == [v.queued[0]] + v.queued[1..];
    }
  }

  lemma RunSplits(base: seq<Action>, later: seq<Action>)
    requires later != []
    ensures Run(base + later) == Step(Run(base + later[..|later| - 1]), later[|later| - 1])
  {
    assert (base + later)[..|base + later| - 1] == base + later[..|later| - 1];
  }

  lemma {:induction false} RunLeavesPending(base: seq<Action>, later: seq<Action>)
    requires Run(base).sessionID != "" && ResetPending(Run(base)) && AllLeavePending(base, later)
    ensures Run(base + later).sessionID == Run(base).sessionID && ResetPending(Run(base + later))
  {
    if later == [] {
      assert base + later == base;
    } else {
      RunLeavesPending(base, later[..|later| - 1]);
      StepLeavesPending(Run(base + later[..|later| - 1]), later[|later| - 1]);
      RunSplits(base, later);
    }
  }

  /**
   However other blocks interleave, a selection stays on its way to the session's latest page: until
   it is answered or left, a reset fetch is queued or its current request is in flight, and the reply
   to that request is then what is shown and cached, with the spinner off.
   */
  lemma SelectionIsAnswered(before: seq<Action>, id: string, onDisk: bool, later: seq<Action>, page: Page)
    requires id != "" && AllLeavePending(before + [Select(id, onDisk)], later)
    ensures var v := Run(before + [Select(id, onDisk)] + later);
      var req := Request(Latest(true), id, v.generation);
      && v.sessionID == id
      && (true in v.queued || req in v.inFlight)
      && (req in v.inFlight ==>
        var answered := Step(v, Reply(req, page));
        && answered.shown == CachedTranscript(page.rows, page.hasMore, MinSeq(page.rows))
        && id in answered.cache && answered.cache[id] == answered.shown
        && !answered.isLoadingLatest)
  {
    RunSnoc(before, Select(id, onDisk));
    RunLeavesPending(before + [Select(id, onDisk)], later);
  }

  /** The action does not select, clear, or bring a current page. */
  predicate LeavesPage(v: View, a: Action) {
    !a.Select? && !a.Clear? && !(a.Reply? && v.Current(a.req))
  }

  ghost predicate AllLeavePage(base: seq<Action>, later: seq<Action>) {
    later != [] ==>
      && AllLeavePage(base, later[..|later| - 1])
      && LeavesPage(Run(base + later[..|later| - 1]), later[|later| - 1])
  }

  /** A page stays shown and cached until the next current page, selection or clearing. */
  lemma {:induction false} PageStays(base: seq<Action>, later: seq<Action>)
    requires AllLeavePage(base, later)
    ensures Run(base + later).shown == Run(base).shown && Run(base + later).cache == Run(base).cache
  {
    if later == [] {
      assert base + later == base;
    } else {
      PageStays(base, later[..|later| - 1]);
      RunSplits(base, later);
    }
  }

  // ----- What a page does to the rows -----

  /** The least sequence number among the rows, if any row has one. */
  ghost predicate IsOldest(oldest: Option<int>, rows: seq<Row>) {
    && (oldest.Some? <==> exists r <- rows :: r.seqNo.Some?)
    && (oldest.Some? ==> exists r <- rows :: r.seqNo == oldest)
    && (oldest.Some? ==> forall r <- rows | r.seqNo.Some? :: oldest.value <= r.seqNo.value)
  }

  lemma {:induction false} MinSeqIsOldest(rows: seq<Row>)
    ensures IsOldest(MinSeq(rows), rows)
  {
    if rows != [] {
      MinSeqIsOldest(rows[1..]);
      assert rows == [rows[0]] + rows[1..];
      if r :| r in rows[1..] && r.seqNo == MinSeq(rows) {
        assert r in rows;
      }
    }
  }

  /** A current reply's rows are shown with the least number among them as cursor, and kept as shown. */
  ghost predicate ShownAndKept(v: View, page: Page) {
    && v.shown.hasMoreHistory == page.hasMore
    && IsOldest(v.shown.oldestLoadedSeq, v.shown.messages)
    && v.sessionID in v.cache && v.cache[v.sessionID] == v.shown
  }

  lemma ReplyIsShownAndKept(v: View, req: Request, page: Page)
    requires v.sessionID != "" && req in v.inFlight && v.Current(req)
    ensures var w := Step(v, Reply(req, page));
      && ShownAndKept(w, page) && w.sessionID == v.sessionID
      && (forall id <- w.cache :: id != v.sessionID ==> id in v.cache && w.cache[id] == v.cache[id])
      && (req.kind.Latest? ==> !w.isLoadingLatest) && (req.kind.Older? ==> !w.isLoadingHistory)
  {
    MinSeqIsOldest(Step(v, Reply(req, page)).shown.messages);
  }

  /** A reset page, from the server or from disk, is what is shown. */
  lemma ResetReplyShowsPage(v: View, req: Request, page: Page)
    requires req in v.inFlight && v.Current(req) && (req.kind == Latest(true) || req.kind == Disk)
    ensures Step(v, Reply(req, page)).shown.messages == page.rows
  {
  }

  /** The row is shown, or gave way, duplicate by duplicate, to a row that is. */
  ghost predicate ShownFor(w: Row, all: seq<Row>, shown: seq<Row>) {
    exists survivor <- shown :: LinkedTo(all, w, survivor)
  }

  /**
   An older page, or a latest one that does not reset, loses no row: what was shown stays unless the
   page has a newer version or the echo of a bubble, user rows at most giving way to duplicates, and
   every row of the page comes in.
   */
  lemma MergingReplyLosesNothing(v: View, req: Request, page: Page)
    requires req in v.inFlight && v.Current(req) && (req.kind == Older || req.kind == Latest(false))
    requires DistinctIds(v.shown.messages) && DistinctIds(page.rows) && forall p <- page.rows :: !p.IsLocal()
    ensures var before, after := v.shown.messages, Step(v, Reply(req, page)).shown.messages;
      && (forall w <- before | w.role != User && forall p <- page.rows :: p.id != w.id :: w in after)
      && (forall w <- before | (forall p <- page.rows :: p.id != w.id)
        && !("local-" <= w.id && w.role == User && before != [] && page.rows != [] && Echoes(page.rows, w)) ::
        ShownFor(w, before + page.rows, after))
      && (forall p <- page.rows :: (p.role != User ==> p in after) && ShownFor(p, before + page.rows, after))
      && (forall r <- after :: r in before || r in page.rows)
  {
    var before, rows := v.shown.messages, page.rows;
    var after := Step(v, Reply(req, page)).shown.messages;
    assert after == Merged(before, rows);
    forall w | w in before && forall p <- rows :: p.id != w.id
      ensures w.role != User ==> w in after
      ensures !(w.IsOptimistic() && before != [] && rows != [] && Echoes(rows, w)) ==> ShownFor(w, before + rows, after)
    {
      OnlyVersion(before, rows, w);
      MergeLosesNothing(before, rows, w.id);
    }
    forall p | p in rows
      ensures (p.role != User ==> p in after) && ShownFor(p, before + rows, after)
    {
      PageVersionWins(before, rows, p);
      MergeLosesNothing(before, rows, p.id);
    }
    forall r | r in after
      ensures r in before || r in rows
    {
      MergeInventsNothing(before, rows, r);
    }
  }

  lemma {:induction false} ByIDKeeps(rows: seq<Row>, r: Row)
    requires DistinctIds(rows) && r in rows
    ensures r.id in ByID(rows) && ByID(rows)[r.id] == r
  {
    ByIDHolds(rows);
    var i :| 0 <= i < |rows| && rows[i] == r;
    var j :| 0 <= j < |rows| && rows[j] == ByID(rows)[r.id];
  }

  lemma OnlyVersion(before: seq<Row>, rows: seq<Row>, w: Row)
    requires DistinctIds(before) && w in before && forall p <- rows :: p.id != w.id
    ensures w.id in ByID(before + rows) && ByID(before + rows)[w.id] == w
  {
    ByIDKeeps(before, w);
    ByIDHolds(rows);
    IncomingWins(before, rows);
  }

  lemma PageVersionWins(before: seq<Row>, rows: seq<Row>, p: Row)
    requires DistinctIds(rows) && p in rows
    ensures p.id in ByID(before + rows) && ByID(before + rows)[p.id] == p
  {
    ByIDKeeps(rows, p);
    IncomingWins(before, rows);
  }

  /** And what is shown after it is in order. */
  lemma MergingReplyReadsInOrder(v: View, req: Request, page: Page, i: nat, j: nat)
    requires req in v.inFlight && v.Current(req) && (req.kind == Older || req.kind == Latest(false))
    requires v.shown.messages != [] && page.rows != [] && i < j < |Step(v, Reply(req, page)).shown.messages|
    ensures var after := Step(v, Reply(req, page)).shown.messages;
      ReadsInOrder(after[i], after[j])
  {
    MergeReadsInOrder(v.shown.messages, page.rows, i, j);
  }

  // ----- What a selection shows, and what is sent -----

  /** What was shown for a session when its last current page had been applied. */
  ghost function LastPage(actions: seq<Action>, id: string): Option<CachedTranscript> {
    if actions == [] then None
    else
      var init, a := actions[..|actions| - 1], actions[|actions| - 1];
      if a.Reply? && Enabled(Run(init), a) && Run(init).Current(a.req) && a.req.session == id
      then Some(Run(actions).shown)
      else LastPage(init, id)
  }

  lemma {:induction false} KeptIsLastPage(actions: seq<Action>, id: string)
    requires id != ""
    ensures Lookup(Run(actions).cache, id) == LastPage(actions, id)
  {
    if actions != [] {
      KeptIsLastPage(actions[..|actions| - 1], id);
    }
  }

  /**
   A selection shows what the session's last page left, or nothing; only for a session without one
   does it ask for the page on disk. The spinner is on, and a reset fetch is queued last.
   */
  lemma SelectionShowsKept(actions: seq<Action>, id: string, onDisk: bool)
    requires id != ""
    ensures var v, w := Run(actions), Run(actions + [Select(id, onDisk)]);
      && w.sessionID == id && w.shown == LastPage(actions, id).GetOr(CachedTranscript([], false, None))
      && (Request(Disk, id, w.generation) in w.inFlight <==> onDisk && LastPage(actions, id).None?)
      && v.inFlight <= w.inFlight && |w.inFlight| <= |v.inFlight| + 1
      && w.queued == v.queued + [true] && w.isLoadingLatest && !w.isLoadingHistory && w.cache == v.cache
  {
    RunSnoc(actions, Select(id, onDisk));
    KeptIsLastPage(actions, id);
    EverySpinnerBacked(actions);
    SelectionAsksDiskExactly(Run(actions), id, onDisk);
  }

  lemma SelectionAsksDiskExactly(v: View, id: string, onDisk: bool)
    requires GenerationsBounded(v)
    ensures var w := Step(v, Select(id, onDisk));
      && (Request(Disk, id, w.generation) in w.inFlight <==> onDisk && id !in v.cache)
      && v.inFlight <= w.inFlight && |w.inFlight| <= |v.inFlight| + 1
  {
  }

  /** A latest fetch waits behind those queued before it, and changes nothing yet. */
  lemma LatestIsQueuedLast(v: View, reset: bool)
    ensures Step(v, QueueLatest(reset)) == v.(queued := v.queued + [reset])
  {
  }

  /** The oldest queued fetch is taken; it is sent once, for the session selected by now, or not at all. */
  lemma LatestIsSentExactly(v: View)
    requires v.queued != []
    ensures var w := Step(v, RunLatest);
      && w.queued == v.queued[1..] && w.sessionID == v.sessionID && w.shown == v.shown && w.cache == v.cache
      && (v.sessionID == "" ==> w == v.(queued := w.queued))
      && (v.sessionID != "" ==>
        && w.isLoadingLatest
        && w.generation == v.generation + (if v.queued[0] then 1 else 0)
        && w.inFlight == v.inFlight + multiset{Request(Latest(v.queued[0]), v.sessionID, w.generation)})
  {
  }

  /** A history fetch is sent exactly when a session is shown that has more, and none is loading. */
  lemma OlderIsSentExactly(v: View)
    ensures var w, req := Step(v, FetchOlder), Request(Older, v.sessionID, v.generation);
      && w == v.(inFlight := w.inFlight, isLoadingHistory := w.isLoadingHistory)
      && (w.inFlight == v.inFlight + multiset{req} || w == v)
      && (w != v <==>
        && v.sessionID != "" && v.shown.hasMoreHistory && !v.isLoadingHistory
        && v.shown.oldestLoadedSeq.Some? && v.shown.oldestLoadedSeq.value > 0)
      && (w != v ==> w.isLoadingHistory && req in w.inFlight)
  {
  }

  /** Clearing shows no session and no rows, and touches nothing that is kept or waiting. */
  lemma ClearKeepsTheRest(v: View)
    ensures var w := Step(v, Clear);
      && w.sessionID == "" && w.shown.messages == [] && w.shown.oldestLoadedSeq.None?
      && w.cache == v.cache && w.queued == v.queued && w.inFlight == v.inFlight && w.generation == v.generation
  {
  }
}
