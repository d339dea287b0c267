/**
 The actor (cli/internal/actor/actor.go): a reducer loop and a runtime loop joined by two bounded
 channels. Each step below is what one goroutine does between two channel operations; goroutines
 interleave freely. The log holds histories that the program itself does not keep.
 */
module ActorLoop {
  import opened Common

  const DEFAULT_MAILBOX := 256

  datatype Config<!S, !I, !E> = Config(capacity: nat, initial: S, reduce: (S, I) -> (S, seq<E>), hasRuntime: bool)

  datatype LoopAt<I, E> = Receiving | Reducing(input: I) | Offering(batch: seq<E>) | LoopExited
  datatype RuntimeAt<I, E> = Idle | Handling(batch: seq<E>) | Emitting(batch: seq<E>, input: I) | RuntimeExited

  /**
   Inputs accepted and reduced, and effect batches handled, and dropped after cancellation; of the
   inputs, those that callers enqueued, those that `emit` was called with, and those it gave up.
   */
  datatype Log<I, E> = Log(
    accepted: seq<I>, processed: seq<I>, handled: seq<seq<E>>, dropped: seq<seq<E>>,
    enqueued: seq<I>, emitted: seq<I>, givenUp: seq<I>)

  /**
   Once a handler has been given `emit` it is `shared`: goroutines that handlers started may call it at
   any time, and `pending` are their calls that have not come back yet.
   */
  datatype System<S, I, E> = System(
    state: S, inbox: seq<I>, effects: seq<seq<E>>, cancelled: bool,
    loop: LoopAt<I, E>, runtime: RuntimeAt<I, E>, shared: bool, pending: seq<I>, log: Log<I, E>)

  function Start<S, I, E>(cfg: Config<S, I, E>): System<S, I, E> {
    System(cfg.initial, [], [], false, Receiving, Idle, false, [], Log([], [], [], [], [], [], []))
  }

  datatype Action<I> =
    | Enqueue(item: I) | Stop                                   // callers
    | Receive | Reduce | Offer | LoopExit                       // the reducer loop
    | TakeBatch | Emit(event: I) | Deliver | GiveUp | Return | RuntimeExit   // the runtime loop
    | Background(event: I) | DeliverPending(i: nat) | DropPending(i: nat)    // goroutines of handlers

  predicate Enabled<S, I, E>(cfg: Config<S, I, E>, s: System<S, I, E>, a: Action<I>) {
    match a
    case Enqueue(_) => true
    case Stop => true
    case Receive => s.loop.Receiving? && s.inbox != []
    case Reduce => s.loop.Reducing?
    case Offer => s.loop.Offering? && |s.effects| < cfg.capacity
    case LoopExit => s.cancelled && (s.loop.Receiving? || s.loop.Offering?)
    case TakeBatch => s.runtime.Idle? && s.effects != []
    case Emit(_) => s.runtime.Handling?
    case Deliver => s.runtime.Emitting? && |s.inbox| < cfg.capacity
    case GiveUp => s.runtime.Emitting? && s.cancelled
    case Return => s.runtime.Handling?
    case RuntimeExit => s.runtime.Idle? && s.cancelled
    case Background(_) => s.shared
    case DeliverPending(i) => i < |s.pending| && |s.inbox| < cfg.capacity
    case DropPending(i) => i < |s.pending| && s.cancelled
  }

  function EnqueueStep<S, I, E>(cfg: Config<S, I, E>, s: System<S, I, E>, item: I): System<S, I, E> {
    if s.cancelled || |s.inbox| >= cfg.capacity then s
    else s.(inbox := s.inbox + [item],
      log := s.log.(accepted := s.log.accepted + [item], enqueued := s.log.enqueued + [item]))
  }

  function ReduceStep<S, I, E>(cfg: Config<S, I, E>, s: System<S, I, E>): System<S, I, E>
    requires s.loop.Reducing?
  {
    var (next, effects) := cfg.reduce(s.state, s.loop.input);
    s.(state := next, loop := if effects != [] then Offering(effects) else Receiving,
      log := s.log.(processed := s.log.processed + [s.loop.input]))
  }

  function LoopExitStep<S, I, E>(s: System<S, I, E>): System<S, I, E> {
    s.(loop := LoopExited,
      log := s.log.(dropped := if s.loop.Offering? then s.log.dropped + [s.loop.batch] else s.log.dropped))
  }

  function TakeBatchStep<S, I, E>(cfg: Config<S, I, E>, s: System<S, I, E>): System<S, I, E>
    requires s.effects != []
  {
    var rest := s.(effects := s.effects[1..]);
    if cfg.hasRuntime then rest.(runtime := Handling(s.effects[0]), shared := true)
    else rest.(log := s.log.(handled := s.log.handled + [s.effects[0]]))
  }

  function DeliverStep<S, I, E>(s: System<S, I, E>): System<S, I, E>
    requires s.runtime.Emitting?
  {
    s.(inbox := s.inbox + [s.runtime.input], runtime := Handling(s.runtime.batch),
      log := s.log.(accepted := s.log.accepted + [s.runtime.input]))
  }

  function WithoutPending<S, I, E>(s: System<S, I, E>, i: nat): System<S, I, E>
    requires i < |s.pending|
  {
    s.(pending := s.pending[..i] + s.pending[i + 1..])
  }

  function DeliverPendingStep<S, I, E>(s: System<S, I, E>, i: nat): System<S, I, E>
    requires i < |s.pending|
  {
    WithoutPending(s, i).(inbox := s.inbox + [s.pending[i]],
      log := s.log.(accepted := s.log.accepted + [s.pending[i]]))
  }

  /** An action that is not enabled does nothing. */
  function Step<S, I, E>(cfg: Config<S, I, E>, s: System<S, I, E>, a: Action<I>): System<S, I, E> {
    if !Enabled(cfg, s, a) then s else
    match a
    case Enqueue(item) => EnqueueStep(cfg, s, item)
    case Stop => s.(cancelled := true)
    case Receive => s.(inbox := s.inbox[1..], loop := Reducing(s.inbox[0]))
    case Reduce => ReduceStep(cfg, s)
    case Offer => s.(effects := s.effects + [s.loop.batch], loop := Receiving)
    case LoopExit => LoopExitStep(s)
    case TakeBatch => TakeBatchStep(cfg, s)
    case Emit(event) =>
      s.(runtime := Emitting(s.runtime.batch, event), log := s.log.(emitted := s.log.emitted + [event]))
    case Deliver => DeliverStep(s)
    case GiveUp =>
      s.(runtime := Handling(s.runtime.batch), log := s.log.(givenUp := s.log.givenUp + [s.runtime.input]))
    case Return => s.(runtime := Idle, log := s.log.(handled := s.log.handled + [s.runtime.batch]))
    case RuntimeExit => s.(runtime := RuntimeExited)
    case Background(event) =>
      s.(pending := s.pending + [event], log := s.log.(emitted := s.log.emitted + [event]))
    case DeliverPending(i) => DeliverPendingStep(s, i)
    case DropPending(i) =>
      WithoutPending(s, i).(log := s.log.(givenUp := s.log.givenUp + [s.pending[i]]))
  }

  function RunFrom<S, I, E>(cfg: Config<S, I, E>, s: System<S, I, E>, actions: seq<Action<I>>): System<S, I, E> {
    if actions == [] then s
    else Step(cfg, RunFrom(cfg, s, actions[..|actions| - 1]), actions[|actions| - 1])
  }

  function Run<S, I, E>(cfg: Config<S, I, E>, actions: seq<Action<I>>): System<S, I, E> {
    RunFrom(cfg, Start(cfg), actions)
  }

  // ----- The sequential machine -----

  /** Reducing the inputs one after the other: the final state, and the non-empty effect batches in order. */
  function Fold<S, I, E>(cfg: Config<S, I, E>, inputs: seq<I>): (S, seq<seq<E>>) {
    if inputs == [] then (cfg.initial, [])
    else
      var (state, batches) := Fold(cfg, inputs[..|inputs| - 1]);
      var (next, effects) := cfg.reduce(state, inputs[|inputs| - 1]);
      (next, if effects != [] then batches + [effects] else batches)
  }

  function LoopInput<I, E>(loop: LoopAt<I, E>): seq<I> {
    if loop.Reducing? then [loop.input] else []
  }

  function LoopBatch<I, E>(loop: LoopAt<I, E>): seq<seq<E>> {
    if loop.Offering? then [loop.batch] else []
  }

  function RuntimeBatch<I, E>(runtime: RuntimeAt<I, E>): seq<seq<E>> {
    if runtime.Handling? || runtime.Emitting? then [runtime.batch] else []
  }

  ghost predicate Refines<S, I, E>(cfg: Config<S, I, E>, s: System<S, I, E>) {
    var (state, batches) := Fold(cfg, s.log.processed);
    && s.state == state
    && s.log.accepted == s.log.processed + LoopInput(s.loop) + s.inbox
    && batches == s.log.handled + RuntimeBatch(s.runtime) + s.effects + LoopBatch(s.loop) + s.log.dropped
    && |s.inbox| <= cfg.capacity && |s.effects| <= cfg.capacity
    && (s.log.dropped != [] ==> s.loop.LoopExited?)
    && (s.loop.LoopExited? || s.runtime.RuntimeExited? ==> s.cancelled)
  }

  lemma ReduceKeepsRefines<S, I, E>(cfg: Config<S, I, E>, s: System<S, I, E>)
    requires Refines(cfg, s) && s.loop.Reducing?
    ensures Refines(cfg, ReduceStep(cfg, s))
  {
    var processed := s.log.processed + [s.loop.input];
    assert processed[..|processed| - 1] == s.log.processed;
  }

  lemma LoopKeepsRefines<S, I, E>(cfg: Config<S, I, E>, s: System<S, I, E>, a: Action<I>)
    requires Refines(cfg, s) && Enabled(cfg, s, a) && (a.Receive? || a.Offer? || a.LoopExit? || a.Stop? || a.Enqueue?)
    ensures Refines(cfg, Step(cfg, s, a))
  {
    assert s.inbox != [] ==> s.inbox == [s.inbox[0]] + s.inbox[1..];
  }

  lemma HeadMoves<T>(done: seq<T>, queue: seq<T>)
    requires queue != []
    ensures done + [] + queue == done + [queue[0]] + queue[1..] == done + [queue[0]] + [] + queue[1..]
  {
    assert queue == [queue[0]] + queue[1..];
  }

  lemma TakeBatchKeepsRefines<S, I, E>(cfg: Config<S, I, E>, s: System<S, I, E>)
    requires Refines(cfg, s) && s.runtime.Idle? && s.effects != []
    ensures Refines(cfg, TakeBatchStep(cfg, s))
  {
    HeadMoves(s.log.handled, s.effects);
  }

  lemma RuntimeKeepsRefines<S, I, E>(cfg: Config<S, I, E>, s: System<S, I, E>, a: Action<I>)
    requires Refines(cfg, s) && Enabled(cfg, s, a) && (a.Return? || a.RuntimeExit? || a.GiveUp?)
    ensures Refines(cfg, Step(cfg, s, a))
  {
    var t := Step(cfg, s, a);
    assert t.log.handled + RuntimeBatch(t.runtime) == s.log.handled + RuntimeBatch(s.runtime);
  }

  lemma EmitKeepsRefines<S, I, E>(cfg: Config<S, I, E>, s: System<S, I, E>, a: Action<I>)
    requires Refines(cfg, s) && Enabled(cfg, s, a)
    requires a.Emit? || a.Deliver? || a.Background? || a.DeliverPending? || a.DropPending?
    ensures Refines(cfg, Step(cfg, s, a))
  {
  }

  /**
   Every interleaving refines the sequential fold: nothing accepted is lost, duplicated or
   reordered on its way to the reducer, nor any effect batch on its way to the runtime, except
   for one batch the loop may be holding when it is cancelled.
   */
  lemma {:induction false} ActorRefinesFold<S, I, E>(cfg: Config<S, I, E>, actions: seq<Action<I>>)
    ensures Refines(cfg, Run(cfg, actions))
  {
    if actions != [] {
      var s, a := Run(cfg, actions[..|actions| - 1]), actions[|actions| - 1];
      ActorRefinesFold(cfg, actions[..|actions| - 1]);
      if Enabled(cfg, s, a) {
        match a
        case Reduce => ReduceKeepsRefines(cfg, s);
        case TakeBatch => TakeBatchKeepsRefines(cfg, s);
        case Emit(_) => EmitKeepsRefines(cfg, s, a);
        case Deliver => EmitKeepsRefines(cfg, s, a);
        case Background(_) => EmitKeepsRefines(cfg, s, a);
        case DeliverPending(_) => EmitKeepsRefines(cfg, s, a);
        case DropPending(_) => EmitKeepsRefines(cfg, s, a);
        case GiveUp => RuntimeKeepsRefines(cfg, s, a);
        case Return => RuntimeKeepsRefines(cfg, s, a);
        case RuntimeExit => RuntimeKeepsRefines(cfg, s, a);
        case _ => LoopKeepsRefines(cfg, s, a);
      }
    }
  }

  // ----- Progress -----

  predicate LoopCanStep<S, I, E>(cfg: Config<S, I, E>, s: System<S, I, E>) {
    Enabled(cfg, s, Receive) || Enabled(cfg, s, Reduce) || Enabled(cfg, s, Offer) || Enabled(cfg, s, LoopExit)
  }

  /** A handler that is not inside emit runs on by itself: Return stands for its next step. */
  predicate RuntimeCanStep<S, I, E>(cfg: Config<S, I, E>, s: System<S, I, E>) {
    || Enabled(cfg, s, TakeBatch) || Enabled(cfg, s, Deliver) || Enabled(cfg, s, GiveUp)
    || Enabled(cfg, s, Return) || Enabled(cfg, s, RuntimeExit)
  }

  /** A call of emit outside the runtime loop can come back; it does so for all of them or none. */
  predicate PendingCanStep<S, I, E>(cfg: Config<S, I, E>, s: System<S, I, E>) {
    Enabled(cfg, s, DeliverPending(0)) || Enabled(cfg, s, DropPending(0))
  }

  predicate Quiet<S, I, E>(s: System<S, I, E>) {
    s.loop.Receiving? && s.inbox == [] && s.runtime.Idle? && s.effects == [] && s.pending == []
  }

  predicate Wedged<S, I, E>(cfg: Config<S, I, E>, s: System<S, I, E>) {
    s.loop.Offering? && |s.effects| == cfg.capacity && s.runtime.Emitting? && |s.inbox| == cfg.capacity
  }

  /** While it runs, the actor stands still exactly when it has nothing to do or is wedged. */
  lemma StandsStillExactly<S, I, E>(cfg: Config<S, I, E>, actions: seq<Action<I>>)
    requires 1 <= cfg.capacity && !Run(cfg, actions).cancelled
    ensures var s := Run(cfg, actions);
      LoopCanStep(cfg, s) || RuntimeCanStep(cfg, s) || PendingCanStep(cfg, s) <==> !Quiet(s) && !Wedged(cfg, s)
  {
    ActorRefinesFold(cfg, actions);
  }

  /** After Stop, neither goroutine is ever blocked again, nor is any call of emit. */
  lemma CancellationUnblocks<S, I, E>(cfg: Config<S, I, E>, actions: seq<Action<I>>)
    requires Run(cfg, actions).cancelled
    ensures var s := Run(cfg, actions);
      && (s.loop.LoopExited? || LoopCanStep(cfg, s))
      && (s.runtime.RuntimeExited? || RuntimeCanStep(cfg, s))
      && (forall i | 0 <= i < |s.pending| :: Enabled(cfg, s, DropPending(i)))
  {
    ActorRefinesFold(cfg, actions);
  }

  /** A wedged actor accepts and changes nothing until it is stopped; at most more calls of emit wait. */
  lemma {:induction false} WedgeLasts<S, I, E>(cfg: Config<S, I, E>, s: System<S, I, E>, actions: seq<Action<I>>)
    requires Wedged(cfg, s) && !s.cancelled && Stop !in actions
    ensures var t := RunFrom(cfg, s, actions);
      && s.pending <= t.pending && s.log.emitted <= t.log.emitted
      && t == s.(pending := t.pending, log := s.log.(emitted := t.log.emitted))
  {
    if actions != [] {
      WedgeLasts(cfg, s, actions[..|actions| - 1]);
    }
  }

  // ----- Where accepted inputs come from -----

  function RuntimeInput<I, E>(runtime: RuntimeAt<I, E>): seq<I> {
    if runtime.Emitting? then [runtime.input] else []
  }

  /** Each input comes in as often as it is accepted, in the runtime's hand, waiting, or given up. */
  ghost predicate Balanced<I>(
    accepted: seq<I>, hand: seq<I>, pending: seq<I>, givenUp: seq<I>, enqueued: seq<I>, emitted: seq<I>)
  {
    multiset(accepted) + multiset(hand) + multiset(pending) + multiset(givenUp)
      == multiset(enqueued) + multiset(emitted)
  }

  lemma BothSides<I>(
    a: multiset<I>, b: multiset<I>, c: multiset<I>, d: multiset<I>, e: multiset<I>, f: multiset<I>, x: I)
    requires a + b + c + d == e + f
    ensures (a + multiset{x}) + b + c + d == (e + multiset{x}) + f
    ensures a + b + (c + multiset{x}) + d == e + (f + multiset{x})
    ensures b == multiset{} ==> a + multiset{x} + c + d == e + (f + multiset{x})
  {
    assert (a + multiset{x}) + b + c + d == (a + b + c + d) + multiset{x};
    assert a + b + (c + multiset{x}) + d == (a + b + c + d) + multiset{x};
    assert b == multiset{} ==> a + multiset{x} + c + d == (a + b + c + d) + multiset{x};
    assert (e + multiset{x}) + f == (e + f) + multiset{x} == e + (f + multiset{x});
  }

  lemma Across<I>(a: multiset<I>, b: multiset<I>, c: multiset<I>, d: multiset<I>, x: I)
    ensures a + (b + multiset{x}) + c + d == (a + multiset{x}) + b + c + d == a + b + c + (d + multiset{x})
    ensures a + b + (c + multiset{x}) + d == (a + multiset{x}) + b + c + d
  {
    assert a + (b + multiset{x}) + c + d == (a + b + c + d) + multiset{x} == (a + multiset{x}) + b + c + d;
    assert a + b + c + (d + multiset{x}) == (a + b + c + d) + multiset{x} == a + b + (c + multiset{x}) + d;
  }

  lemma OneIn<I>(acc: seq<I>, hand: seq<I>, pend: seq<I>, given: seq<I>, enq: seq<I>, emit: seq<I>, x: I)
    requires Balanced(acc, hand, pend, given, enq, emit)
    ensures Balanced(acc + [x], hand, pend, given, enq + [x], emit)
    ensures Balanced(acc, hand, pend + [x], given, enq, emit + [x])
    ensures hand == [] ==> Balanced(acc, [x], pend, given, enq, emit + [x])
  {
    BothSides(multiset(acc), multiset(hand), multiset(pend), multiset(given), multiset(enq), multiset(emit), x);
  }

  lemma FromHand<I>(acc: seq<I>, x: I, pend: seq<I>, given: seq<I>, enq: seq<I>, emit: seq<I>)
    requires Balanced(acc, [x], pend, given, enq, emit)
    ensures Balanced(acc + [x], [], pend, given, enq, emit) && Balanced(acc, [], pend, given + [x], enq, emit)
  {
    Across(multiset(acc), multiset{}, multiset(pend), multiset(given), x);
    assert multiset([x]) == multiset{} + multiset{x};
  }

  lemma FromPending<I>(acc: seq<I>, hand: seq<I>, pend: seq<I>, given: seq<I>, enq: seq<I>, emit: seq<I>, i: nat)
    requires i < |pend| && Balanced(acc, hand, pend, given, enq, emit)
    ensures var rest := pend[..i] + pend[i + 1..];
      Balanced(acc + [pend[i]], hand, rest, given, enq, emit) && Balanced(acc, hand, rest, given + [pend[i]], enq, emit)
  {
    RemoveOne(pend, i);
    Across(multiset(acc), multiset(hand), multiset(pend[..i] + pend[i + 1..]), multiset(given), pend[i]);
  }

  lemma RemoveOne<T>(s: seq<T>, i: nat)
    requires i < |s|
    ensures multiset(s) == multiset(s[..i] + s[i + 1..]) + multiset{s[i]}
  {
    assert s == s[..i] + ([s[i]] + s[i + 1..]);
  }

  /**
   What callers enqueued and what emit was called with is all accounted for, and nothing is given up
   before the actor is stopped.
   */
  ghost predicate Conserves<S, I, E>(s: System<S, I, E>) {
    && Balanced(s.log.accepted, RuntimeInput(s.runtime), s.pending, s.log.givenUp, s.log.enqueued, s.log.emitted)
    && (s.log.givenUp != [] ==> s.cancelled)
  }

  lemma EntryConserves<S, I, E>(cfg: Config<S, I, E>, s: System<S, I, E>, a: Action<I>, x: I)
    requires Conserves(s) && Enabled(cfg, s, a) && (a == Enqueue(x) || a == Emit(x) || a == Background(x))
    ensures Conserves(Step(cfg, s, a))
  {
    var log := s.log;
    OneIn(log.accepted, RuntimeInput(s.runtime), s.pending, log.givenUp, log.enqueued, log.emitted, x);
  }

  lemma HandConserves<S, I, E>(cfg: Config<S, I, E>, s: System<S, I, E>, a: Action<I>)
    requires Conserves(s) && Enabled(cfg, s, a) && (a.Deliver? || a.GiveUp?)
    ensures Conserves(Step(cfg, s, a))
  {
    var log := s.log;
    FromHand(log.accepted, s.runtime.input, s.pending, log.givenUp, log.enqueued, log.emitted);
  }

  lemma PendingConserves<S, I, E>(cfg: Config<S, I, E>, s: System<S, I, E>, a: Action<I>)
    requires Conserves(s) && Enabled(cfg, s, a) && (a.DeliverPending? || a.DropPending?)
    ensures Conserves(Step(cfg, s, a))
  {
    var log := s.log;
    FromPending(log.accepted, RuntimeInput(s.runtime), s.pending, log.givenUp, log.enqueued, log.emitted, a.i);
  }

  lemma OthersConserve<S, I, E>(cfg: Config<S, I, E>, s: System<S, I, E>, a: Action<I>)
    requires Conserves(s) && Enabled(cfg, s, a)
    requires a.Stop? || a.Receive? || a.Reduce? || a.Offer? || a.LoopExit?
      || a.TakeBatch? || a.Return? || a.RuntimeExit?
    ensures Conserves(Step(cfg, s, a))
  {
  }

  lemma StepConserves<S, I, E>(cfg: Config<S, I, E>, s: System<S, I, E>, a: Action<I>)
    requires Conserves(s) && Enabled(cfg, s, a)
    ensures Conserves(Step(cfg, s, a))
  {
    match a
    case Enqueue(x) => EntryConserves(cfg, s, a, x);
    case Emit(x) => EntryConserves(cfg, s, a, x);
    case Background(x) => EntryConserves(cfg, s, a, x);
    case Deliver => HandConserves(cfg, s, a);
    case GiveUp => HandConserves(cfg, s, a);
    case DeliverPending(_) => PendingConserves(cfg, s, a);
    case DropPending(_) => PendingConserves(cfg, s, a);
    case _ => OthersConserve(cfg, s, a);
  }

  lemma {:induction false} EveryInputIsAccountedFor<S, I, E>(cfg: Config<S, I, E>, actions: seq<Action<I>>)
    ensures Conserves(Run(cfg, actions))
  {
    if actions != [] {
      var s, a := Run(cfg, actions[..|actions| - 1]), actions[|actions| - 1];
      EveryInputIsAccountedFor(cfg, actions[..|actions| - 1]);
      if Enabled(cfg, s, a) {
        StepConserves(cfg, s, a);
      }
    }
  }

  /** The inputs that a step puts into the mailbox: one at the end, from a caller or from emit, if there is room. */
  lemma AcceptedIsLast<S, I, E>(cfg: Config<S, I, E>, s: System<S, I, E>, a: Action<I>)
    requires Enabled(cfg, s, a) && (a.Enqueue? || a.Deliver? || a.DeliverPending?)
    ensures var t := Step(cfg, s, a);
      var input := if a.Enqueue? then a.item else if a.Deliver? then s.runtime.input else s.pending[a.i];
      && (a.Enqueue? && (s.cancelled || |s.inbox| >= cfg.capacity) ==> t == s)
      && (!(a.Enqueue? && (s.cancelled || |s.inbox| >= cfg.capacity)) ==>
        && t.inbox == s.inbox + [input] && t.log.accepted == s.log.accepted + [input]
        && (a.Deliver? ==> t.runtime == Handling(s.runtime.batch))
        && (a.DeliverPending? ==> multiset(t.pending) + multiset{input} == multiset(s.pending)))
  {
    if a.DeliverPending? {
      RemoveOne(s.pending, a.i);
    }
  }

  /** What emit is called with is in the runtime's hand, or waits in the background. */
  lemma EmittedIsHeld<S, I, E>(cfg: Config<S, I, E>, s: System<S, I, E>, a: Action<I>)
    requires Enabled(cfg, s, a) && (a.Emit? || a.Background?)
    ensures var t := Step(cfg, s, a);
      && t.log.emitted == s.log.emitted + [a.event] && t.inbox == s.inbox
      && (a.Emit? ==> t.runtime == Emitting(s.runtime.batch, a.event) && t.pending == s.pending)
      && (a.Background? ==> t.pending == s.pending + [a.event] && t.runtime == s.runtime)
  {
  }

  /** A handler's goroutines can call emit exactly once some batch has been handed to the runtime. */
  lemma {:induction false} HandlersCanEmit<S, I, E>(cfg: Config<S, I, E>, actions: seq<Action<I>>, event: I)
    ensures var s := Run(cfg, actions);
      Enabled(cfg, s, Background(event)) <==>
        cfg.hasRuntime && (s.log.handled != [] || s.runtime.Handling? || s.runtime.Emitting?)
  {
    if actions != [] {
      HandlersCanEmit(cfg, actions[..|actions| - 1], event);
      OnlyARuntimeHandles(cfg, actions[..|actions| - 1]);
    }
  }

  /** Stop is final, and changes nothing else. */
  lemma {:induction false} StopLasts<S, I, E>(cfg: Config<S, I, E>, before: seq<Action<I>>, later: seq<Action<I>>)
    ensures Run(cfg, before + [Stop]) == Run(cfg, before).(cancelled := true)
    ensures Run(cfg, before + [Stop] + later).cancelled
  {
    assert (before + [Stop])[..|before|] == before;
    if later == [] {
      assert before + [Stop] + later == before + [Stop];
    } else {
      var all, init := before + [Stop] + later, later[..|later| - 1];
      assert all[..|all| - 1] == before + [Stop] + init;
      StopLasts(cfg, before, init);
    }
  }

  // ----- When the wedge can be reached -----

  lemma RunSnoc<S, I, E>(cfg: Config<S, I, E>, actions: seq<Action<I>>, a: Action<I>)
    ensures Run(cfg, actions + [a]) == Step(cfg, Run(cfg, actions), a)
  {
    assert (actions + [a])[..|actions|] == actions;
  }

  lemma {:induction false} BatchesComeFromInputs<S, I, E>(cfg: Config<S, I, E>, inputs: seq<I>)
    ensures |Fold(cfg, inputs).1| <= |inputs|
  {
    if inputs != [] {
      BatchesComeFromInputs(cfg, inputs[..|inputs| - 1]);
    }
  }

  lemma {:induction false} OnlyARuntimeHandles<S, I, E>(cfg: Config<S, I, E>, actions: seq<Action<I>>)
    ensures var s := Run(cfg, actions);
      s.runtime.Handling? || s.runtime.Emitting? ==> cfg.hasRuntime
  {
    if actions != [] {
      OnlyARuntimeHandles(cfg, actions[..|actions| - 1]);
    }
  }

  /** A wedge takes a runtime, capacity + 2 effect batches, and 2 * capacity + 2 accepted inputs. */
  lemma WedgeNeedsTraffic<S, I, E>(cfg: Config<S, I, E>, actions: seq<Action<I>>)
    requires Wedged(cfg, Run(cfg, actions))
    ensures var log := Run(cfg, actions).log;
      && cfg.hasRuntime
      && |Fold(cfg, log.processed).1| >= cfg.capacity + 2
      && |log.processed| >= cfg.capacity + 2
      && |log.accepted| >= 2 * cfg.capacity + 2
  {
    ActorRefinesFold(cfg, actions);
    OnlyARuntimeHandles(cfg, actions);
    BatchesComeFromInputs(cfg, Run(cfg, actions).log.processed);
  }

  /**
   The actor has reduced these inputs one by one, with the runtime busy on the first batch from when
   there was one, and the others queued.
   */
  ghost predicate Backlogged<S, I, E>(cfg: Config<S, I, E>, s: System<S, I, E>, inputs: seq<I>) {
    var (state, batches) := Fold(cfg, inputs);
    && s.loop.Receiving? && s.inbox == [] && !s.cancelled && s.state == state
    && (if batches == [] then s.runtime.Idle? && s.effects == []
      else s.runtime == Handling(batches[0]) && s.effects == batches[1..])
  }

  /** From there, one more input reaches the loop's offer. */
  lemma OneMoreInput<S, I, E>(cfg: Config<S, I, E>, before: seq<Action<I>>, inputs: seq<I>, item: I)
    returns (actions: seq<Action<I>>)
    requires 1 <= cfg.capacity && Backlogged(cfg, Run(cfg, before), inputs)
    ensures var s, t := Run(cfg, before), Run(cfg, actions);
      var (state, effects) := cfg.reduce(s.state, item);
      && t.state == state && t.inbox == [] && !t.cancelled && t.runtime == s.runtime && t.effects == s.effects
      && t.loop == if effects != [] then Offering(effects) else Receiving
  {
    RunSnoc(cfg, before, Enqueue(item));
    RunSnoc(cfg, before + [Enqueue(item)], Receive);
    RunSnoc(cfg, before + [Enqueue(item)] + [Receive], Reduce);
    actions := before + [Enqueue(item)] + [Receive] + [Reduce];
  }

  lemma FoldSnoc<S, I, E>(cfg: Config<S, I, E>, inputs: seq<I>)
    requires inputs != []
    ensures var (state, batches), (next, after) := Fold(cfg, inputs[..|inputs| - 1]), Fold(cfg, inputs);
      var (reduced, effects) := cfg.reduce(state, inputs[|inputs| - 1]);
      next == reduced && after == if effects != [] then batches + [effects] else batches
  {
  }

  /** Inputs that make up to capacity + 1 batches can all be reduced while the runtime is busy. */
  lemma {:induction false} BuildBacklog<S, I, E>(cfg: Config<S, I, E>, inputs: seq<I>) returns (actions: seq<Action<I>>)
    requires 1 <= cfg.capacity && cfg.hasRuntime && |Fold(cfg, inputs).1| <= cfg.capacity + 1
    ensures Backlogged(cfg, Run(cfg, actions), inputs)
  {
    if inputs == [] { return []; }
    var init, item := inputs[..|inputs| - 1], inputs[|inputs| - 1];
    FoldSnoc(cfg, inputs);
    actions := BuildBacklog(cfg, init);
    actions := OneMoreInput(cfg, actions, init, item);
    var batches := Fold(cfg, init).1;
    if Run(cfg, actions).loop.Offering? {
      RunSnoc(cfg, actions, Offer);
      actions := actions + [Offer];
      if batches == [] {
        RunSnoc(cfg, actions, TakeBatch);
        actions := actions + [TakeBatch];
      }
    }
  }

  lemma FillMailbox<S, I, E>(cfg: Config<S, I, E>, before: seq<Action<I>>, item: I) returns (actions: seq<Action<I>>)
    requires !Run(cfg, before).cancelled && |Run(cfg, before).inbox| <= cfg.capacity
    ensures var s, t := Run(cfg, before), Run(cfg, actions);
      |t.inbox| == cfg.capacity && !t.cancelled && (t.loop, t.runtime, t.effects) == (s.loop, s.runtime, s.effects)
    decreases cfg.capacity - |Run(cfg, before).inbox|
  {
    if |Run(cfg, before).inbox| == cfg.capacity { return before; }
    RunSnoc(cfg, before, Enqueue(item));
    actions := FillMailbox(cfg, before + [Enqueue(item)], item);
  }

  lemma BatchesGrowByOne<S, I, E>(cfg: Config<S, I, E>, inputs: seq<I>)
    requires inputs != []
    ensures 0 <= |Fold(cfg, inputs).1| - |Fold(cfg, inputs[..|inputs| - 1]).1| <= 1
  {
    FoldSnoc(cfg, inputs);
  }

  lemma PrefixOfPrefix<T>(s: seq<T>, n: nat, k: nat)
    requires k <= n <= |s|
    ensures s[..n][..k] == s[..k]
  {
  }

  lemma {:induction false} PrefixWithBatches<S, I, E>(cfg: Config<S, I, E>, inputs: seq<I>, n: nat) returns (k: nat)
    requires 0 < n <= |Fold(cfg, inputs).1|
    ensures 0 < k <= |inputs| && |Fold(cfg, inputs[..k]).1| == n && |Fold(cfg, inputs[..k - 1]).1| == n - 1
  {
    var init := inputs[..|inputs| - 1];
    BatchesGrowByOne(cfg, inputs);
    if |Fold(cfg, init).1| >= n {
      k := PrefixWithBatches(cfg, init, n);
      PrefixOfPrefix(inputs, |init|, k);
      PrefixOfPrefix(inputs, |init|, k - 1);
    } else {
      k := |inputs|;
      assert inputs[..k] == inputs;
    }
  }

  lemma ReachWedge<S, I, E>(cfg: Config<S, I, E>, inputs: seq<I>) returns (actions: seq<Action<I>>)
    requires 1 <= cfg.capacity && cfg.hasRuntime && |Fold(cfg, inputs).1| >= cfg.capacity + 2
    ensures Wedged(cfg, Run(cfg, actions)) && !Run(cfg, actions).cancelled
  {
    var k := PrefixWithBatches(cfg, inputs, cfg.capacity + 2);
    var init, item := inputs[..k - 1], inputs[k - 1];
    assert inputs[..k][..k - 1] == init;
    FoldSnoc(cfg, inputs[..k]);
    actions := BuildBacklog(cfg, init);
    actions := OneMoreInput(cfg, actions, init, item);
    RunSnoc(cfg, actions, Emit(item));
    actions := FillMailbox(cfg, actions + [Emit(item)], item);
  }

  /**
   The wedge can be reached exactly when there is a runtime and some inputs make the reducer produce
   effects capacity + 2 times: a handler may emit, and callers may fill the mailbox, at any time.
   */
  lemma WedgeIsReachableExactly<S, I(!new), E>(cfg: Config<S, I, E>)
    requires 1 <= cfg.capacity
    ensures (exists actions: seq<Action<I>> :: Wedged(cfg, Run(cfg, actions)) && !Run(cfg, actions).cancelled)
      <==> (cfg.hasRuntime && exists inputs: seq<I> :: |Fold(cfg, inputs).1| >= cfg.capacity + 2)
  {
    if cfg.hasRuntime && exists inputs: seq<I> :: |Fold(cfg, inputs).1| >= cfg.capacity + 2 {
      var inputs: seq<I> :| |Fold(cfg, inputs).1| >= cfg.capacity + 2;
      var actions := ReachWedge(cfg, inputs);
    }
    if exists actions: seq<Action<I>> :: Wedged(cfg, Run(cfg, actions)) {
      var actions: seq<Action<I>> :| Wedged(cfg, Run(cfg, actions));
      WedgeNeedsTraffic(cfg, actions);
    }
  }

  /** From every state that inputs lead to, some input still produces effects. */
  ghost predicate StaysActive<S, I(!new), E>(cfg: Config<S, I, E>) {
    forall inputs: seq<I> :: exists item: I :: cfg.reduce(Fold(cfg, inputs).0, item).1 != []
  }

  lemma ActiveReducerMakesBatches<S, I(!new), E>(cfg: Config<S, I, E>, n: nat) returns (inputs: seq<I>)
    requires StaysActive(cfg)
    ensures |Fold(cfg, inputs).1| >= n
  {
    if n == 0 { return []; }
    var init := ActiveReducerMakesBatches(cfg, n - 1);
    var item :| cfg.reduce(Fold(cfg, init).0, item).1 != [];
    inputs := init + [item];
    assert inputs[..|inputs| - 1] == init;
    FoldSnoc(cfg, inputs);
  }

  /** So every actor with a runtime whose reducer stays active can wedge, whatever its queue size. */
  lemma ActiveActorCanWedge<S, I(!new), E>(cfg: Config<S, I, E>) returns (actions: seq<Action<I>>)
    requires 1 <= cfg.capacity && cfg.hasRuntime && StaysActive(cfg)
    ensures Wedged(cfg, Run(cfg, actions)) && !Run(cfg, actions).cancelled
  {
    var inputs := ActiveReducerMakesBatches(cfg, cfg.capacity + 2);
    actions := ReachWedge(cfg, inputs);
  }

  // ----- The goroutines -----

  class Actor<S(!new), I(!new), E(!new)> {
    const cfg: Config<S, I, E>
    var state: S
    var inbox: seq<I>
    var effects: seq<seq<E>>
    var cancelled: bool
    var loop: LoopAt<I, E>
    var runtime: RuntimeAt<I, E>
    var pending: seq<I>
    ghost var shared: bool
    ghost var log: Log<I, E>

    ghost function Snapshot(): System<S, I, E>
      reads this
    {
      System(state, inbox, effects, cancelled, loop, runtime, shared, pending, log)
    }

    /** A mailbox size that is not positive is ignored; the effects queue is as long as the mailbox. */
    constructor (initial: S, reduce: (S, I) -> (S, seq<E>), hasRuntime: bool, mailboxSize: int)
      ensures 1 <= cfg.capacity == if mailboxSize <= 0 then 256 else mailboxSize
      ensures cfg.initial == initial && cfg.reduce == reduce && cfg.hasRuntime == hasRuntime
      ensures Snapshot() == Start(cfg)
    {
      cfg := Config(if mailboxSize <= 0 then DEFAULT_MAILBOX else mailboxSize, initial, reduce, hasRuntime);
      state, inbox, effects, cancelled, loop, runtime := initial, [], [], false, Receiving, Idle;
      pending, shared, log := [], false, Log([], [], [], [], [], [], []);
    }

    method EnqueueInput(input: I) returns (ok: bool)
      modifies this`inbox, this`log
      ensures Snapshot() == EnqueueStep(cfg, old(Snapshot()), input)
      ensures ok <==> !cancelled && |old(inbox)| < cfg.capacity
    {
      if cancelled { return false; }
      if |inbox| >= cfg.capacity { return false; }
      inbox := inbox + [input];
      log := log.(accepted := log.accepted + [input], enqueued := log.enqueued + [input]);
      return true;
    }

    method Cancel()
      modifies this`cancelled
      ensures Snapshot() == Step(cfg, old(Snapshot()), Stop)
    {
      cancelled := true;
    }

    /**
     The next segment of the loop goroutine. When a select has both cancellation and a channel
     ready, `preferDone` says which one it picks; `blocked` means that neither is ready.
     */
    method LoopNext(preferDone: bool) returns (blocked: bool, ghost a: Action<I>)
      modifies this
      ensures blocked ==> Snapshot() == old(Snapshot()) && !LoopCanStep(cfg, Snapshot())
      ensures !blocked ==> a in {Receive, Reduce, Offer, LoopExit} && Enabled(cfg, old(Snapshot()), a)
      ensures !blocked ==> Snapshot() == Step(cfg, old(Snapshot()), a)
    {
      blocked, a := false, Reduce;
      match loop
      case Receiving =>
        if cancelled && (preferDone || inbox == []) {
          a, loop := LoopExit, LoopExited;
        } else if inbox != [] {
          a, loop, inbox := Receive, Reducing(inbox[0]), inbox[1..];
        } else {
          blocked := true;
        }
      case Reducing(input) =>
        var (next, produced) := cfg.reduce(state, input);
        state := next;
        loop := if |produced| > 0 then Offering(produced) else Receiving;
        log := log.(processed := log.processed + [input]);
      case Offering(batch) =>
        if cancelled && (preferDone || |effects| >= cfg.capacity) {
          a, loop := LoopExit, LoopExited;
          log := log.(dropped := log.dropped + [batch]);
        } else if |effects| < cfg.capacity {
          a, effects, loop := Offer, effects + [batch], Receiving;
        } else {
          blocked := true;
        }
      case LoopExited =>
        blocked := true;
    }

    /** The next segment of the runtime goroutine; inside a handler, `next` is the event it emits, if any. */
    method RuntimeNext(preferDone: bool, next: Option<I>) returns (blocked: bool, ghost a: Action<I>)
      modifies this
      ensures blocked ==> Snapshot() == old(Snapshot()) && !RuntimeCanStep(cfg, Snapshot())
      ensures !blocked ==> Enabled(cfg, old(Snapshot()), a) && Snapshot() == Step(cfg, old(Snapshot()), a)
      ensures !blocked ==>
        a in {TakeBatch, Deliver, GiveUp, Return, RuntimeExit} || (next.Some? && a == Emit(next.value))
    {
      blocked, a := false, Return;
      match runtime
      case Idle =>
        if cancelled && (preferDone || effects == []) {
          a, runtime := RuntimeExit, RuntimeExited;
        } else if effects != [] {
          a := TakeBatch;
          if cfg.hasRuntime {
            runtime, shared := Handling(effects[0]), true;
          } else {
            log := log.(handled := log.handled + [effects[0]]);
          }
          effects := effects[1..];
        } else {
          blocked := true;
        }
      case Handling(batch) =>
        if next.Some? {
          a, runtime := Emit(next.value), Emitting(batch, next.value);
          log := log.(emitted := log.emitted + [next.value]);
        } else {
          runtime := Idle;
          log := log.(handled := log.handled + [batch]);
        }
      case Emitting(batch, input) =>
        if cancelled && (preferDone || |inbox| >= cfg.capacity) {
          a, runtime := GiveUp, Handling(batch);
          log := log.(givenUp := log.givenUp + [input]);
        } else if |inbox| < cfg.capacity {
          a, inbox, runtime := Deliver, inbox + [input], Handling(batch);
          log := log.(accepted := log.accepted + [input]);
        } else {
          blocked := true;
        }
      case RuntimeExited =>
        blocked := true;
    }

    /** A goroutine that a handler started calls emit. */
    method EmitInBackground(event: I)
      requires shared
      modifies this`pending, this`log
      ensures Snapshot() == Step(cfg, old(Snapshot()), Background(event))
    {
      pending := pending + [event];
      log := log.(emitted := log.emitted + [event]);
    }

    /** The call blocks until the mailbox has room or the actor is stopped. */
    method PendingNext(i: nat, preferDone: bool) returns (blocked: bool, ghost a: Action<I>)
      requires i < |pending|
      modifies this`pending, this`inbox, this`log
      ensures blocked ==> Snapshot() == old(Snapshot()) && !PendingCanStep(cfg, Snapshot())
      ensures !blocked ==> a in {DeliverPending(i), DropPending(i)} && Enabled(cfg, old(Snapshot()), a)
      ensures !blocked ==> Snapshot() == Step(cfg, old(Snapshot()), a)
    {
      blocked, a := false, DropPending(i);
      if cancelled && (preferDone || |inbox| >= cfg.capacity) {
        log := log.(givenUp := log.givenUp + [pending[i]]);
        pending := pending[..i] + pending[i + 1..];
      } else if |inbox| < cfg.capacity {
        a := DeliverPending(i);
        log := log.(accepted := log.accepted + [pending[i]]);
        inbox, pending := inbox + [pending[i]], pending[..i] + pending[i + 1..];
      } else {
        blocked := true;
      }
    }
  }
}
