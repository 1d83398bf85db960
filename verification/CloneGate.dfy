/**
 * The serializing gate over one clone. Each critical section waits for one promise only, the tail
 * of the chain when it was queued; that this is a first-in-first-out mutex is what is proved.
 */
module CloneGate {
  import opened Wrappers

  datatype Status = Waiting | Running | Settled(rejected: bool)

  /** A queued critical section: the promise it was chained on, and how far it is. */
  datatype Section = Section(after: Option<nat>, status: Status)

  /** The gate's tail, the sections in the order they were queued, and the guarded clone. */
  datatype State<C> = State(tail: Option<nat>, sections: seq<Section>, clone: C)

  datatype Event<C> =
    | Queue
    | Start(section: nat)
    | Touch(section: nat, clone: C)
    | Read(section: nat)
    | Finish(section: nat, rejected: bool)

  predicate IsRunning<C>(s: State<C>, i: nat) { i < |s.sections| && s.sections[i].status.Running? }

  /** The promise a section waits for has settled, either way. */
  predicate Released<C>(s: State<C>, after: Option<nat>) {
    after.None? || (after.value < |s.sections| && s.sections[after.value].status.Settled?)
  }

  predicate Enabled<C>(s: State<C>, e: Event<C>) {
    match e
    case Queue => true
    case Start(i) => i < |s.sections| && s.sections[i].status.Waiting? && Released(s, s.sections[i].after)
    case Touch(i, _) => IsRunning(s, i)
    case Read(i) => IsRunning(s, i)
    case Finish(i, _) => IsRunning(s, i)
  }

  function Do<C>(s: State<C>, e: Event<C>): State<C>
    requires Enabled(s, e)
  {
    match e
    case Queue => s.(tail := Some(|s.sections|), sections := s.sections + [Section(s.tail, Waiting)])
    case Start(i) => s.(sections := s.sections[i := s.sections[i].(status := Running)])
    case Touch(_, clone) => s.(clone := clone)
    case Read(_) => s
    case Finish(i, rejected) => s.(sections := s.sections[i := s.sections[i].(status := Settled(rejected))])
  }

  /** Each section is chained on the one queued before it, and whatever has begun has every earlier one behind it. */
  ghost predicate Inv<C>(s: State<C>) {
    && s.tail == (if |s.sections| == 0 then None else Some(|s.sections| - 1))
    && (forall i | 0 <= i < |s.sections| :: s.sections[i].after == if i == 0 then None else Some(i - 1))
    && (forall i, j | 0 <= i < j < |s.sections| && !s.sections[j].status.Waiting? :: s.sections[i].status.Settled?)
  }

  lemma StepKeeps<C>(s: State<C>, e: Event<C>)
    requires Inv(s) && Enabled(s, e)
    ensures Inv(Do(s, e))
  {
    if e.Start? {
      var i := e.section;
      assert i > 0 ==> s.sections[i - 1].status.Settled?;
      assert forall k: nat | k + 1 < i :: s.sections[k].status.Settled?;
    }
  }

  function Steps<C>(s: State<C>, events: seq<Event<C>>): Option<State<C>>
    decreases events
  {
    if events == [] then Some(s)
    else if Enabled(s, events[0]) then Steps(Do(s, events[0]), events[1..])
    else None
  }

  lemma {:induction false} StepsKeep<C>(s: State<C>, events: seq<Event<C>>)
    requires Inv(s) && Steps(s, events).Some?
    ensures Inv(Steps(s, events).value)
    decreases events
  {
    if events != [] {
      StepKeeps(s, events[0]);
      StepsKeep(Do(s, events[0]), events[1..]);
    }
  }

  function Fresh<C>(clone: C): State<C> { State(None, [], clone) }

  /** The gate object. Its one field is the tail; promises are numbered as they are made. */
  class TargetCloneGate<C> {
    var tail: Option<nat>
    ghost var state: State<C>

    ghost predicate Valid()
      reads this
    {
      tail == state.tail && Inv(state)
    }

    constructor (ghost clone: C)
      ensures Valid() && state == Fresh(clone)
    {
      tail, state := None, Fresh(clone);
    }

    /**
     * Queue a section: of all the sections queued so far it waits for the last one alone, and that is
     * the protocol's own queueing step.
     */
    method Run() returns (section: nat, after: Option<nat>)
      requires Valid()
      modifies this
      ensures Valid() && state == Do(old(state), Queue)
      ensures section == |old(state).sections| && state.sections[section] == Section(after, Waiting)
      ensures after == if section == 0 then None else Some(section - 1)
    {
      after := tail;
      section := if tail.None? then 0 else tail.value + 1;
      tail := Some(section);
      StepKeeps(state, Queue);
      state := Do(state, Queue);
    }
  }

  /**
   * Over every interleaving: at most one section runs, sections begin in the order they were
   * queued, and a section that has begun has every earlier one settled, resolved or rejected.
   */
  lemma GateIsFifoMutex<C>(clone: C, events: seq<Event<C>>)
    requires Steps(Fresh(clone), events).Some?
    ensures var s := Steps(Fresh(clone), events).value;
            && (forall i: nat, j: nat | IsRunning(s, i) && IsRunning(s, j) :: i == j)
            && (forall i, j | 0 <= i < j < |s.sections| && !s.sections[j].status.Waiting? :: s.sections[i].status.Settled?)
  {
    StepsKeep(Fresh(clone), events);
    var s := Steps(Fresh(clone), events).value;
    forall i: nat, j: nat | IsRunning(s, i) && IsRunning(s, j)
      ensures i == j
    {
      OneRuns(s, i, j);
    }
  }

  lemma OneRuns<C>(s: State<C>, i: nat, j: nat)
    requires Inv(s) && IsRunning(s, i) && IsRunning(s, j)
    ensures i == j
  {
  }

  /** The gate is never wedged: when nothing runs, the first waiting section can start, whatever became of those before it. */
  lemma GateMakesProgress<C>(clone: C, events: seq<Event<C>>, i: nat)
    requires Steps(Fresh(clone), events).Some?
    requires var s := Steps(Fresh(clone), events).value;
             && i < |s.sections| && s.sections[i].status.Waiting?
             && (forall k | 0 <= k < i :: !s.sections[k].status.Waiting?)
             && (forall k: nat :: !IsRunning(s, k))
    ensures Enabled(Steps(Fresh(clone), events).value, Start(i))
  {
    StepsKeep(Fresh(clone), events);
    var s := Steps(Fresh(clone), events).value;
    if i > 0 {
      assert !IsRunning(s, i - 1) && !s.sections[i - 1].status.Waiting?;
    }
  }

  /** Start and finish the sections from `i` on, each with its own outcome. */
  ghost function Drain<C(!new)>(i: nat, n: nat, rejected: nat -> bool): seq<Event<C>>
    decreases n - i
  {
    if i >= n then [] else [Start(i), Finish(i, rejected(i))] + Drain(i + 1, n, rejected)
  }

  /** Section `i` is the first that has not settled, and none behind it has begun. */
  ghost predicate Reached<C>(s: State<C>, i: nat) {
    && i <= |s.sections| && (forall k | 0 <= k < i :: s.sections[k].status.Settled?)
    && forall k | i < k < |s.sections| :: s.sections[k].status.Waiting?
  }

  /** From `s` to `t` the settled sections stand, the others settle as told, and none else touches the clone. */
  ghost predicate SettledAs<C>(s: State<C>, t: State<C>, rejected: nat -> bool) {
    && |t.sections| == |s.sections| && t.clone == s.clone
    && forall k | 0 <= k < |s.sections| ::
         t.sections[k].status == if s.sections[k].status.Settled? then s.sections[k].status else Settled(rejected(k))
  }

  /** The first waiting section can run to its end, and then the next one is the first. */
  lemma OneSettles<C>(s: State<C>, i: nat, rejected: bool, rest: seq<Event<C>>) returns (t: State<C>)
    requires Inv(s) && i < |s.sections| && Reached(s, i) && s.sections[i].status.Waiting?
    ensures Inv(t) && t.clone == s.clone && Reached(t, i + 1)
    ensures t.sections == s.sections[i := s.sections[i].(status := Settled(rejected))]
    ensures Steps(s, [Start(i), Finish(i, rejected)] + rest) == Steps(t, rest)
  {
    StepKeeps(s, Start(i));
    StepKeeps(Do(s, Start(i)), Finish(i, rejected));
    t := Do(Do(s, Start(i)), Finish(i, rejected));
    TwoSteps(s, Start(i), Finish(i, rejected), rest);
  }

  lemma TwoSteps<C>(s: State<C>, e: Event<C>, d: Event<C>, rest: seq<Event<C>>)
    requires Enabled(s, e) && Enabled(Do(s, e), d)
    ensures Steps(s, [e, d] + rest) == Steps(Do(Do(s, e), d), rest)
  {
    assert ([e, d] + rest)[1..] == [d] + rest && ([d] + rest)[1..] == rest;
  }

  lemma {:induction false} Drains<C(!new)>(s: State<C>, i: nat, rejected: nat -> bool)
    requires Inv(s) && Reached(s, i) && (i < |s.sections| ==> s.sections[i].status.Waiting?)
    ensures Steps(s, Drain(i, |s.sections|, rejected)).Some?
    ensures SettledAs(s, Steps(s, Drain(i, |s.sections|, rejected)).value, rejected)
    decreases |s.sections| - i
  {
    if i < |s.sections| {
      var rest: seq<Event<C>> := Drain(i + 1, |s.sections|, rejected);
      var t := OneSettles(s, i, rejected(i), rest);
      Drains(t, i + 1, rejected);
      SettledOnwards(s, i, t, Steps(t, rest).value, rejected);
    }
  }

  lemma SettledOnwards<C>(s: State<C>, i: nat, u: State<C>, t: State<C>, rejected: nat -> bool)
    requires i < |s.sections| && !s.sections[i].status.Settled? && u.clone == s.clone
    requires u.sections == s.sections[i := s.sections[i].(status := Settled(rejected(i)))] && SettledAs(u, t, rejected)
    ensures SettledAs(s, t, rejected)
  {
  }

  lemma {:induction false} FirstUnsettled<C>(s: State<C>, n: nat) returns (i: nat)
    requires Inv(s) && n <= |s.sections| && forall k | 0 <= k < |s.sections| - n :: s.sections[k].status.Settled?
    ensures Reached(s, i) && (i < |s.sections| ==> !s.sections[i].status.Settled?)
  {
    i := |s.sections| - n;
    if n > 0 && s.sections[i].status.Settled? {
      i := FirstUnsettled(s, n - 1);
    }
  }

  /**
   * No section is ever lost behind another: from every reachable state the sections queued so far can
   * all run to their ends, in order, whichever of them reject.
   */
  lemma EverySectionSettles<C(!new)>(clone: C, events: seq<Event<C>>, rejected: nat -> bool)
    requires Steps(Fresh(clone), events).Some?
    ensures var s := Steps(Fresh(clone), events).value;
            exists more :: Steps(s, more).Some? && SettledAs(s, Steps(s, more).value, rejected)
  {
    StepsKeep(Fresh(clone), events);
    var s := Steps(Fresh(clone), events).value;
    var i := FirstUnsettled(s, |s.sections|);
    if IsRunning(s, i) {
      var t := Do(s, Finish(i, rejected(i)));
      StepKeeps(s, Finish(i, rejected(i)));
      Drains(t, i + 1, rejected);
      var rest: seq<Event<C>> := Drain(i + 1, |s.sections|, rejected);
      var more := [Finish(i, rejected(i))] + rest;
      assert more[1..] == rest;
      SettledOnwards(s, i, t, Steps(s, more).value, rejected);
    } else {
      Drains(s, i, rejected);
    }
  }
}
