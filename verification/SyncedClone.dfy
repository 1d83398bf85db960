/**
 * The gate and the refresh together: sections that refresh the clone and then read it, among
 * sections that work in the clone in any other way, all serialized on one gate.
 */
module SyncedClone {
  import opened Wrappers
  import opened CloneSync
  import Gate = CloneGate

  /** How far a section is. A foreign one is any other user of the gate: worktree preparation, say. */
  datatype Progress =
    | Foreign
    | Begun | BaseFetched | Inspected(seen: BaseState) | Holding(synced: Synced) | Failed(error: Failure)

  /** A read of the clone: by which section, and the commit it found at HEAD. */
  datatype Sight = Sight(section: nat, head: nat)

  datatype World = World(gate: Gate.State<Clone>, progress: seq<Progress>, sights: seq<Sight>)

  /** One step. Between any two steps of a section, which are its awaits, steps of the others may come. */
  datatype Event =
    | QueueSynced | QueueForeign
    | Start(section: nat)
    | Fetch(section: nat, tip: Option<nat>)
    | Inspect(section: nat, faults: Faults)
    | Decide(section: nat, faults: Faults)
    | Read(section: nat)
    | Work(section: nat, clone: Clone)
    | Finish(section: nat, rejected: bool)

  predicate At(w: World, i: nat) { i < |w.progress| && Gate.IsRunning(w.gate, i) }

  /** A section takes its steps in program order; one that failed to refresh can only reject. */
  predicate Enabled(w: World, e: Event) {
    match e
    case QueueSynced => true
    case QueueForeign => true
    case Start(i) => Gate.Enabled(w.gate, Gate.Start(i))
    case Fetch(i, _) => At(w, i) && w.progress[i].Begun?
    case Inspect(i, _) => At(w, i) && w.progress[i].BaseFetched?
    case Decide(i, _) => At(w, i) && w.progress[i].Inspected?
    case Read(i) => At(w, i) && w.progress[i].Holding?
    case Work(i, _) => At(w, i) && w.progress[i].Foreign?
    case Finish(i, rejected) =>
      At(w, i) && (w.progress[i].Foreign? || w.progress[i].Holding? || (w.progress[i].Failed? && rejected))
  }

  /** What a section holds once its refresh has resolved or rejected. */
  function Outcome(r: Result<Synced, Failure>): Progress {
    match r
    case Ok(synced) => Holding(synced)
    case Err(error) => Failed(error)
  }

  function Moved(w: World, i: nat, clone: Clone, progress: Progress): World
    requires At(w, i)
  {
    w.(gate := Gate.Do(w.gate, Gate.Touch(i, clone)), progress := w.progress[i := progress])
  }

  ghost function Do(dag: Dag, base: string, w: World, e: Event): World
    requires Enabled(w, e)
  {
    match e
    case QueueSynced => w.(gate := Gate.Do(w.gate, Gate.Queue), progress := w.progress + [Begun])
    case QueueForeign => w.(gate := Gate.Do(w.gate, Gate.Queue), progress := w.progress + [Foreign])
    case Start(i) => w.(gate := Gate.Do(w.gate, Gate.Start(i)))
    case Fetch(i, tip) =>
      Moved(w, i, Fetched(w.gate.clone, tip), if tip.Some? then BaseFetched else Failed(FetchFailed))
    case Inspect(i, f) =>
      var seen := Observed(dag, w.gate.clone, f);
      Moved(w, i, w.gate.clone, if seen.Ok? then Inspected(seen.value) else Failed(seen.error))
    case Decide(i, f) =>
      var (clone, result) := Concluded(dag, base, Ok(w.progress[i].seen), w.gate.clone, f);
      Moved(w, i, clone, Outcome(result))
    case Read(i) => w.(gate := Gate.Do(w.gate, Gate.Read(i)), sights := w.sights + [Sight(i, w.gate.clone.head)])
    case Work(i, clone) => Moved(w, i, clone, Foreign)
    case Finish(i, rejected) => w.(gate := Gate.Do(w.gate, Gate.Finish(i, rejected)))
  }

  function Fresh(clone: Clone): World { World(Gate.Fresh(clone), [], []) }

  ghost function Steps(dag: Dag, base: string, w: World, events: seq<Event>): Option<World>
    decreases events
  {
    if events == [] then Some(w)
    else if Enabled(w, events[0]) then Steps(dag, base, Do(dag, base, w, events[0]), events[1..])
    else None
  }

  // ---------------------------------------------------------------- the invariant

  /** The inspections still describe the clone. */
  ghost predicate Describes(dag: Dag, seen: BaseState, clone: Clone) {
    && seen.local == clone.head && seen.remote == clone.remote && seen.dirty == clone.dirty
    && (seen.branch.Some? ==> seen.branch == clone.branch)
    && (seen.fastForwardable ==> Ancestor(dag, clone.head, clone.remote))
  }

  /** The clone is the clean base checkout, at the fetched commit the refresh reported, with the old HEAD behind it. */
  ghost predicate Holds(dag: Dag, base: string, synced: Synced, clone: Clone) {
    && clone == Clone(Some(base), false, synced.head, synced.head)
    && Ancestor(dag, synced.previousHead, synced.head)
  }

  /** What a section may rely on at each point of its progress. */
  ghost predicate Justified(dag: Dag, base: string, p: Progress, status: Gate.Status, clone: Clone) {
    match status
    case Waiting => p.Foreign? || p.Begun?
    case Running => (p.Inspected? ==> Describes(dag, p.seen, clone)) && (p.Holding? ==> Holds(dag, base, p.synced, clone))
    case Settled(rejected) => p.Foreign? || p.Holding? || (p.Failed? && rejected)
  }

  ghost predicate Seen(w: World, sight: Sight) {
    sight.section < |w.progress| && w.progress[sight.section].Holding? && w.progress[sight.section].synced.head == sight.head
  }

  ghost predicate Inv(dag: Dag, base: string, w: World) {
    && Gate.Inv(w.gate) && |w.progress| == |w.gate.sections|
    && (forall i | 0 <= i < |w.progress| :: Justified(dag, base, w.progress[i], w.gate.sections[i].status, w.gate.clone))
    && (forall k | 0 <= k < |w.sights| :: Seen(w, w.sights[k]))
  }

  lemma DecisionHolds(dag: Dag, base: string, seen: BaseState, clone: Clone, f: Faults)
    requires Describes(dag, seen, clone)
    ensures var (after, r) := Concluded(dag, base, Ok(seen), clone, f);
            && (r.Ok? ==> Holds(dag, base, r.value, after))
            && Keeps(dag, clone, after)
  {
    assert Ancestor(dag, clone.head, clone.head);
  }

  /** The running section's own step: nobody else is running, so nobody else's reliance is at stake. */
  lemma MovedKeeps(dag: Dag, base: string, w: World, i: nat, clone: Clone, p: Progress)
    requires Inv(dag, base, w) && At(w, i) && !w.progress[i].Holding?
    requires Justified(dag, base, p, Gate.Running, clone)
    ensures Inv(dag, base, Moved(w, i, clone, p))
  {
    Gate.StepKeeps(w.gate, Gate.Touch(i, clone));
    var after := Moved(w, i, clone, p);
    forall j: nat | j < |w.progress|
      ensures Justified(dag, base, after.progress[j], after.gate.sections[j].status, clone)
    {
      if j != i && w.gate.sections[j].status.Running? {
        Gate.OneRuns(w.gate, i, j);
      }
    }
    forall k | 0 <= k < |w.sights|
      ensures Seen(after, w.sights[k])
    {
      assert Seen(w, w.sights[k]);
    }
  }

  lemma QueueKeeps(dag: Dag, base: string, w: World, e: Event)
    requires Inv(dag, base, w) && (e.QueueSynced? || e.QueueForeign?)
    ensures Inv(dag, base, Do(dag, base, w, e))
  {
    Gate.StepKeeps(w.gate, Gate.Queue);
    var after := Do(dag, base, w, e);
    forall k | 0 <= k < |w.sights|
      ensures Seen(after, w.sights[k])
    {
      assert Seen(w, w.sights[k]);
    }
  }

  lemma StartKeeps(dag: Dag, base: string, w: World, i: nat)
    requires Inv(dag, base, w) && Enabled(w, Start(i))
    ensures Inv(dag, base, Do(dag, base, w, Start(i)))
  {
    Gate.StepKeeps(w.gate, Gate.Start(i));
    var after := Do(dag, base, w, Start(i));
    assert Justified(dag, base, w.progress[i], Gate.Waiting, w.gate.clone);
    forall k | 0 <= k < |w.sights|
      ensures Seen(after, w.sights[k])
    {
      assert Seen(w, w.sights[k]);
    }
  }

  lemma FinishKeeps(dag: Dag, base: string, w: World, i: nat, rejected: bool)
    requires Inv(dag, base, w) && Enabled(w, Finish(i, rejected))
    ensures Inv(dag, base, Do(dag, base, w, Finish(i, rejected)))
  {
    Gate.StepKeeps(w.gate, Gate.Finish(i, rejected));
    var after := Do(dag, base, w, Finish(i, rejected));
    forall k | 0 <= k < |w.sights|
      ensures Seen(after, w.sights[k])
    {
      assert Seen(w, w.sights[k]);
    }
  }

  lemma ReadKeeps(dag: Dag, base: string, w: World, i: nat)
    requires Inv(dag, base, w) && Enabled(w, Read(i))
    ensures Inv(dag, base, Do(dag, base, w, Read(i)))
  {
    var after := Do(dag, base, w, Read(i));
    assert Justified(dag, base, w.progress[i], Gate.Running, w.gate.clone);
    forall k | 0 <= k < |after.sights|
      ensures Seen(after, after.sights[k])
    {
      if k < |w.sights| {
        assert Seen(w, w.sights[k]);
      }
    }
  }

  lemma StepKeeps(dag: Dag, base: string, w: World, e: Event)
    requires Inv(dag, base, w) && Enabled(w, e)
    ensures Inv(dag, base, Do(dag, base, w, e))
  {
    match e
    case QueueSynced => QueueKeeps(dag, base, w, e);
    case QueueForeign => QueueKeeps(dag, base, w, e);
    case Start(i) => StartKeeps(dag, base, w, i);
    case Fetch(i, tip) =>
      MovedKeeps(dag, base, w, i, Fetched(w.gate.clone, tip), if tip.Some? then BaseFetched else Failed(FetchFailed));
    case Inspect(i, f) =>
      var seen := Observed(dag, w.gate.clone, f);
      assert Ancestor(dag, w.gate.clone.head, w.gate.clone.head);
      MovedKeeps(dag, base, w, i, w.gate.clone, if seen.Ok? then Inspected(seen.value) else Failed(seen.error));
    case Decide(i, f) =>
      assert Justified(dag, base, w.progress[i], Gate.Running, w.gate.clone);
      DecisionHolds(dag, base, w.progress[i].seen, w.gate.clone, f);
      var (clone, result) := Concluded(dag, base, Ok(w.progress[i].seen), w.gate.clone, f);
      MovedKeeps(dag, base, w, i, clone, Outcome(result));
    case Read(i) => ReadKeeps(dag, base, w, i);
    case Work(i, clone) => MovedKeeps(dag, base, w, i, clone, Foreign);
    case Finish(i, rejected) => FinishKeeps(dag, base, w, i, rejected);
  }

  lemma {:induction false} StepsKeep(dag: Dag, base: string, w: World, events: seq<Event>)
    requires Inv(dag, base, w) && Steps(dag, base, w, events).Some?
    ensures Inv(dag, base, Steps(dag, base, w, events).value)
    decreases events
  {
    if events != [] {
      StepKeeps(dag, base, w, events[0]);
      StepsKeep(dag, base, Do(dag, base, w, events[0]), events[1..]);
    }
  }

  // ---------------------------------------------------------------- every run

  /**
   * In every reachable state: a running section whose refresh resolved stands on the clean base
   * checkout at the very commit the refresh reported; every read found the commit its own section's
   * refresh reported; a section whose refresh failed has read nothing; and a section that resolved
   * held a refreshed clone.
   */
  lemma ReadersSeeTheirRefresh(dag: Dag, base: string, clone: Clone, events: seq<Event>)
    requires Steps(dag, base, Fresh(clone), events).Some?
    ensures var w := Steps(dag, base, Fresh(clone), events).value;
            && |w.progress| == |w.gate.sections|
            && (forall i: nat | At(w, i) && w.progress[i].Holding? ::
                  && w.gate.clone == Clone(Some(base), false, w.progress[i].synced.head, w.progress[i].synced.head)
                  && Ancestor(dag, w.progress[i].synced.previousHead, w.gate.clone.head))
            && (forall k | 0 <= k < |w.sights| ::
                  && w.sights[k].section < |w.progress| && w.progress[w.sights[k].section].Holding?
                  && w.progress[w.sights[k].section].synced.head == w.sights[k].head)
            && (forall i: nat, k | i < |w.progress| && w.progress[i].Failed? && 0 <= k < |w.sights| :: w.sights[k].section != i)
            && (forall i: nat | i < |w.progress| && w.gate.sections[i].status == Gate.Settled(false) ::
                  w.progress[i].Foreign? || w.progress[i].Holding?)
  {
    StepsKeep(dag, base, Fresh(clone), events);
    var w := Steps(dag, base, Fresh(clone), events).value;
    assert forall k | 0 <= k < |w.sights| :: Seen(w, w.sights[k]);
    assert forall i: nat | i < |w.progress| ::
        Justified(dag, base, w.progress[i], w.gate.sections[i].status, w.gate.clone);
  }

  /** The section whose step this is, if it is a step taken inside a section. */
  predicate Inside(e: Event, i: nat) {
    match e
    case QueueSynced => false
    case QueueForeign => false
    case Start(j) => false
    case Fetch(j, _) => j == i
    case Inspect(j, _) => j == i
    case Decide(j, _) => j == i
    case Read(j) => j == i
    case Work(j, _) => j == i
    case Finish(j, _) => j == i
  }

  /** Whatever the others do between two steps of a running section, it finds the clone as it left it. */
  lemma {:induction false} OthersWait(dag: Dag, base: string, w: World, i: nat, events: seq<Event>)
    requires Inv(dag, base, w) && At(w, i) && Steps(dag, base, w, events).Some?
    requires forall e | e in events :: !Inside(e, i)
    ensures var after := Steps(dag, base, w, events).value;
            Inv(dag, base, after) && At(after, i) && after.gate.clone == w.gate.clone && after.progress[i] == w.progress[i]
    decreases events
  {
    if events != [] {
      assert events[0] in events;
      StepKeeps(dag, base, w, events[0]);
      OtherWaits(dag, base, w, i, events[0]);
      OthersWait(dag, base, Do(dag, base, w, events[0]), i, events[1..]);
    }
  }

  lemma OtherWaits(dag: Dag, base: string, w: World, i: nat, e: Event)
    requires Inv(dag, base, w) && At(w, i) && Enabled(w, e) && !Inside(e, i)
    ensures var after := Do(dag, base, w, e);
            At(after, i) && after.gate.clone == w.gate.clone && after.progress[i] == w.progress[i]
  {
    if !e.QueueSynced? && !e.QueueForeign? && !e.Start? {
      Gate.OneRuns(w.gate, i, e.section);
    }
  }

  lemma {:induction false} StepsSplit(dag: Dag, base: string, w: World, first: seq<Event>, rest: seq<Event>)
    requires Steps(dag, base, w, first + rest).Some?
    ensures Steps(dag, base, w, first).Some?
    ensures Steps(dag, base, w, first + rest) == Steps(dag, base, Steps(dag, base, w, first).value, rest)
    decreases first
  {
    if first == [] {
      assert first + rest == rest;
    } else {
      assert (first + rest)[0] == first[0] && (first + rest)[1..] == first[1..] + rest;
      StepsSplit(dag, base, Do(dag, base, w, first[0]), first[1..], rest);
    }
  }

  lemma OneStep(dag: Dag, base: string, w: World, e: Event, rest: seq<Event>)
    requires Steps(dag, base, w, [e] + rest).Some?
    ensures Enabled(w, e) && Steps(dag, base, w, [e] + rest) == Steps(dag, base, Do(dag, base, w, e), rest)
  {
    assert ([e] + rest)[1..] == rest;
  }

  /**
   * The gate makes the refresh atomic: however the other sections' steps fall between its fetch, its
   * inspections and its merge, it leaves the clone and reports exactly what a lone `Sync` would.
   */
  lemma RefreshIsAtomic(dag: Dag, base: string, w: World, i: nat, tip: nat, f: Faults, a: seq<Event>, b: seq<Event>)
    requires Inv(dag, base, w) && At(w, i) && w.progress[i].Begun?
    requires (forall e | e in a :: !Inside(e, i)) && (forall e | e in b :: !Inside(e, i))
    requires Steps(dag, base, w, [Fetch(i, Some(tip))] + (a + ([Inspect(i, f)] + (b + ([Decide(i, f)] + []))))).Some?
    ensures var after := Steps(dag, base, w, [Fetch(i, Some(tip))] + (a + ([Inspect(i, f)] + (b + ([Decide(i, f)] + []))))).value;
            var clone := Fetched(w.gate.clone, Some(tip));
            var (left, result) := Concluded(dag, base, Observed(dag, clone, f), clone, f);
            At(after, i) && after.gate.clone == left && after.progress[i] == Outcome(result)
  {
    var tail := [Inspect(i, f)] + (b + ([Decide(i, f)] + []));
    OneStep(dag, base, w, Fetch(i, Some(tip)), a + tail);
    StepKeeps(dag, base, w, Fetch(i, Some(tip)));
    var w1 := Do(dag, base, w, Fetch(i, Some(tip)));
    StepsSplit(dag, base, w1, a, tail);
    OthersWait(dag, base, w1, i, a);
    var w2 := Steps(dag, base, w1, a).value;
    OneStep(dag, base, w2, Inspect(i, f), b + ([Decide(i, f)] + []));
    StepKeeps(dag, base, w2, Inspect(i, f));
    var w3 := Do(dag, base, w2, Inspect(i, f));
    StepsSplit(dag, base, w3, b, [Decide(i, f)] + []);
    OthersWait(dag, base, w3, i, b);
    var w4 := Steps(dag, base, w3, b).value;
    OneStep(dag, base, w4, Decide(i, f), []);
  }

  /** Foreign work that leaves the base checkout's HEAD alone, as creating a worktree does. */
  ghost predicate Leaves(dag: Dag, w: World, e: Event) { e.Work? ==> Keeps(dag, w.gate.clone, e.clone) }

  /** Every step of a run whose foreign work leaves HEAD alone. */
  ghost predicate AllLeave(dag: Dag, base: string, w: World, events: seq<Event>)
    decreases events
  {
    events != [] && Enabled(w, events[0]) ==>
      Leaves(dag, w, events[0]) && AllLeave(dag, base, Do(dag, base, w, events[0]), events[1..])
  }

  /** Over every run of the gate, HEAD stays on its branch and only moves to descendants. */
  lemma {:induction false} RunsKeepHistory(dag: Dag, base: string, w: World, events: seq<Event>)
    requires Inv(dag, base, w) && Steps(dag, base, w, events).Some? && AllLeave(dag, base, w, events)
    ensures Keeps(dag, w.gate.clone, Steps(dag, base, w, events).value.gate.clone)
    decreases events
  {
    assert Ancestor(dag, w.gate.clone.head, w.gate.clone.head);
    if events != [] {
      var next := Do(dag, base, w, events[0]);
      StepKeeps(dag, base, w, events[0]);
      StepKeepsHistory(dag, base, w, events[0]);
      RunsKeepHistory(dag, base, next, events[1..]);
      var last := Steps(dag, base, w, events).value;
      AncestorTransitive(dag, w.gate.clone.head, next.gate.clone.head, last.gate.clone.head);
    }
  }

  lemma StepKeepsHistory(dag: Dag, base: string, w: World, e: Event)
    requires Inv(dag, base, w) && Enabled(w, e) && Leaves(dag, w, e)
    ensures Keeps(dag, w.gate.clone, Do(dag, base, w, e).gate.clone)
  {
    assert Ancestor(dag, w.gate.clone.head, w.gate.clone.head);
    if e.Decide? {
      assert Justified(dag, base, w.progress[e.section], Gate.Running, w.gate.clone);
      DecisionHolds(dag, base, w.progress[e.section].seen, w.gate.clone, e.faults);
    }
  }

  // ---------------------------------------------------------------- sections end

  /** How many of its own steps a section has left before its end. */
  function Left(p: Progress): nat {
    match p
    case Begun => 3
    case BaseFetched => 2
    case Inspected(_) => 1
    case _ => 0
  }

  lemma ThenSteps(dag: Dag, base: string, w: World, e: Event, rest: seq<Event>)
    requires Enabled(w, e)
    ensures Steps(dag, base, w, [e] + rest) == Steps(dag, base, Do(dag, base, w, e), rest)
  {
    assert ([e] + rest)[1..] == rest;
  }

  /** The step a running section takes next, when its fetch finds `tip` and its processes have these faults. */
  function NextStep(p: Progress, i: nat, tip: Option<nat>, f: Faults): Event {
    match p
    case Begun => Fetch(i, tip)
    case BaseFetched => Inspect(i, f)
    case Inspected(_) => Decide(i, f)
    case _ => Finish(i, p.Failed?)
  }

  /**
   * No section keeps the gate: whatever its fetch and its processes do, a running one reaches its end by
   * its own steps, and rejects exactly when its refresh failed.
   */
  lemma {:induction false} SectionEnds(dag: Dag, base: string, w: World, i: nat, tip: Option<nat>, f: Faults)
    returns (more: seq<Event>)
    requires At(w, i) && |w.progress| == |w.gate.sections|
    ensures |more| <= Left(w.progress[i]) + 1 && forall e | e in more :: Inside(e, i)
    ensures Steps(dag, base, w, more).Some?
    ensures var t := Steps(dag, base, w, more).value;
            && |t.progress| == |t.gate.sections| == |w.gate.sections|
            && t.gate.sections[i].status == Gate.Settled(t.progress[i].Failed?)
    decreases Left(w.progress[i])
  {
    var e := NextStep(w.progress[i], i, tip, f);
    if e.Finish? {
      more := [e];
      ThenSteps(dag, base, w, e, []);
      assert [e] + [] == [e];
    } else {
      var rest := SectionEnds(dag, base, Do(dag, base, w, e), i, tip, f);
      more := [e] + rest;
      ThenSteps(dag, base, w, e, rest);
    }
  }
}
