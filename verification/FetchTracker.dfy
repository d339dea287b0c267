/**
 Whether a Claude process is working, from the fetches it has open (cli/internal/claude/process.go).
 A handler, or a debounce timer firing, is one atomic step.
 */
module FetchTracker {
  const WORKING_CHANNEL_SIZE := 10

  /** `changes` are all values announced, `channel` those waiting, and `heard` those a listener has taken. */
  datatype Tracker = Tracker(
    active: set<int>, working: bool, timers: nat, changes: seq<bool>, channel: seq<bool>, heard: seq<bool>)

  const Idle := Tracker({}, false, 0, [], [], [])

  datatype Event = Started(id: int) | Ended(id: int) | TimerFired | Listened

  /** A value that finds the channel full is dropped. */
  function SetWorkingStep(t: Tracker, working: bool): Tracker {
    if t.working == working then t
    else t.(working := working, changes := t.changes + [working],
      channel := if |t.channel| < WORKING_CHANNEL_SIZE then t.channel + [working] else t.channel)
  }

  function Step(t: Tracker, e: Event): Tracker {
    match e
    case Started(id) =>
      var started := t.(active := t.active + {id});
      if t.active == {} then SetWorkingStep(started, true) else started
    case Ended(id) =>
      var left := t.active - {id};
      t.(active := left, timers := if left == {} then t.timers + 1 else t.timers)
    case TimerFired =>
      if t.timers == 0 then t
      else
        var fired := t.(timers := t.timers - 1);
        if t.active == {} then SetWorkingStep(fired, false) else fired
    case Listened =>
      if t.channel == [] then t else t.(channel := t.channel[1..], heard := t.heard + [t.channel[0]])
  }

  class Process {
    var activeFetches: set<int>
    var working: bool
    /** Debounce goroutines still asleep. */
    var timers: nat
    var workingCh: seq<bool>
    ghost var changes: seq<bool>
    ghost var heard: seq<bool>

    ghost function Snapshot(): Tracker
      reads this
    {
      Tracker(activeFetches, working, timers, changes, workingCh, heard)
    }

    constructor ()
      ensures Snapshot() == Idle
    {
      activeFetches, working, timers, workingCh, changes, heard := {}, false, 0, [], [], [];
    }

    method HandleFetchStart(id: int)
      modifies this
      ensures Snapshot() == Step(old(Snapshot()), Started(id))
    {
      var wasEmpty := activeFetches == {};
      activeFetches := activeFetches + {id};
      if wasEmpty {
        SetWorking(true);
      }
    }

    method HandleFetchEnd(id: int)
      modifies this
      ensures Snapshot() == Step(old(Snapshot()), Ended(id))
    {
      activeFetches := activeFetches - {id};
      if activeFetches == {} {
        timers := timers + 1;
      }
    }

    method FireDebounce()
      requires timers > 0
      modifies this
      ensures Snapshot() == Step(old(Snapshot()), TimerFired)
    {
      timers := timers - 1;
      if activeFetches == {} {
        SetWorking(false);
      }
    }

    method SetWorking(value: bool)
      modifies this`working, this`workingCh, this`changes
      ensures Snapshot() == SetWorkingStep(old(Snapshot()), value)
    {
      if working == value { return; }
      working := value;
      changes := changes + [value];
      if |workingCh| < WORKING_CHANNEL_SIZE {
        workingCh := workingCh + [value];
      }
    }

    /** A listener receives from Working(). */
    method Listen() returns (value: bool)
      requires workingCh != []
      modifies this`workingCh, this`heard
      ensures value == old(workingCh)[0] && Snapshot() == Step(old(Snapshot()), Listened)
    {
      value := workingCh[0];
      heard, workingCh := heard + [value], workingCh[1..];
    }
  }

  function Run(es: seq<Event>): Tracker {
    if es == [] then Idle else Step(Run(es[..|es| - 1]), es[|es| - 1])
  }

  /** The fetches open after a run: started and not ended since. */
  function OpenFetches(es: seq<Event>): set<int> {
    if es == [] then {}
    else
      var before, e := OpenFetches(es[..|es| - 1]), es[|es| - 1];
      if e.Started? then before + {e.id} else if e.Ended? then before - {e.id} else before
  }

  /**
   In every interleaving an open fetch means working, and working without one means that a timer
   is still to fire; so with neither, the process is not working. The changes announced
   alternate, from true, and end at the present value.
   */
  lemma {:induction false} WorkingIsAccountedFor(es: seq<Event>)
    ensures var t := Run(es);
      && t.active == OpenFetches(es)
      && (OpenFetches(es) != {} ==> t.working)
      && (t.working && OpenFetches(es) == {} ==> t.timers > 0)
      && (forall i | 0 <= i < |t.changes| :: t.changes[i] == (i % 2 == 0))
      && t.working == (|t.changes| % 2 == 1)
  {
    if es != [] {
      WorkingIsAccountedFor(es[..|es| - 1]);
    }
  }

  /** How often an end left no fetch open. */
  function TimesEmptied(es: seq<Event>): nat {
    if es == [] then 0
    else
      TimesEmptied(es[..|es| - 1]) + if es[|es| - 1].Ended? && OpenFetches(es) == {} then 1 else 0
  }

  /** How often a timer that was pending has fired. */
  function TimesFired(es: seq<Event>): nat {
    if es == [] then 0
    else
      TimesFired(es[..|es| - 1]) + if es[|es| - 1].TimerFired? && Run(es[..|es| - 1]).timers > 0 then 1 else 0
  }

  /** Each end that leaves no fetch open starts one timer, which fires once. */
  lemma {:induction false} TimersAreCounted(es: seq<Event>)
    ensures Run(es).timers + TimesFired(es) == TimesEmptied(es)
  {
    if es != [] {
      TimersAreCounted(es[..|es| - 1]);
      WorkingIsAccountedFor(es[..|es| - 1]);
    }
  }

  // ----- What a listener learns -----

  /** The step announces a change that the full channel has no room for. */
  predicate Misses(t: Tracker, e: Event) {
    Step(t, e).changes != t.changes && |t.channel| == WORKING_CHANNEL_SIZE
  }

  predicate NeverMisses(es: seq<Event>) {
    es != [] ==> NeverMisses(es[..|es| - 1]) && !Misses(Run(es[..|es| - 1]), es[|es| - 1])
  }

  lemma ChannelStep(t: Tracker, e: Event)
    requires |t.channel| <= WORKING_CHANNEL_SIZE
    ensures var u := Step(t, e);
      && |u.channel| <= WORKING_CHANNEL_SIZE
      && (if u.changes == t.changes || Misses(t, e) then u.heard + u.channel == t.heard + t.channel
        else exists value :: u.changes == t.changes + [value] && u.heard + u.channel == t.heard + t.channel + [value])
      && (u.changes != t.changes ==> |u.changes| == |t.changes| + 1)
  {
    assert t.channel != [] ==> t.channel == [t.channel[0]] + t.channel[1..];
    var u := Step(t, e);
    if u.changes != t.changes && !Misses(t, e) {
      var value := u.changes[|t.changes|];
      assert u.changes == t.changes + [value] && u.channel == t.channel + [value];
      assert u.heard + u.channel == t.heard + t.channel + [value];
    }
  }

  /**
   What a listener has heard, followed by what is waiting for it, is every change in order, exactly
   when no change ever found the channel full.
   */
  lemma {:induction false} ListenerHearsAllExactly(es: seq<Event>)
    ensures var t := Run(es);
      && |t.channel| <= 10
      && |t.heard + t.channel| <= |t.changes|
      && (t.heard + t.channel == t.changes <==> NeverMisses(es))
      && (|t.heard + t.channel| == |t.changes| <==> NeverMisses(es))
  {
    if es != [] {
      ListenerHearsAllExactly(es[..|es| - 1]);
      ChannelStep(Run(es[..|es| - 1]), es[|es| - 1]);
    }
  }

  /** A listener that is away for five turns is told nothing of the sixth: it will end on the fifth's false. */
  lemma ListenerMayMissAChange(id: int) returns (es: seq<Event>)
    ensures var t := Run(es);
      !NeverMisses(es) && t.working && |t.channel| == 10 && !t.channel[|t.channel| - 1]
  {
    var turns := Turns(id, 5);
    es := turns + [Started(id)];
    assert es[..|es| - 1] == turns;
    ListenerHearsAllExactly(es);
    WorkingIsAccountedFor(turns);
    ListenerHearsAllExactly(turns);
  }

  lemma {:induction false} Turns(id: int, n: nat) returns (es: seq<Event>)
    requires n <= 5
    ensures var t := Run(es);
      t.active == {} && !t.working && t.timers == 0 && t.heard == [] && t.channel == t.changes && |t.changes| == 2 * n
    ensures NeverMisses(es)
  {
    es := [];
    if n > 0 {
      var before := Turns(id, n - 1);
      RunSnoc(before, Started(id));
      RunSnoc(before + [Started(id)], Ended(id));
      RunSnoc(before + [Started(id)] + [Ended(id)], TimerFired);
      es := before + [Started(id)] + [Ended(id)] + [TimerFired];
      ListenerHearsAllExactly(es);
    }
  }

  lemma RunSnoc(es: seq<Event>, e: Event)
    ensures Run(es + [e]) == Step(Run(es), e)
  {
    assert (es + [e])[..|es|] == es;
  }
}
