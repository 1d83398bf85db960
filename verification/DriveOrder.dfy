/** The order the daemon drives its reconcilers in, over every run of the slot protocol. */
module DriveOrder {
  import opened Wrappers
  import opened SlotProtocol

  /** A run that ends where the driver is first idle again. */
  ghost predicate UntilIdle(c: Config, s: State, events: seq<Event>)
    decreases events
  {
    && events != [] && Enabled(c, s, events[0])
    && var t := Do(c, s, events[0]);
       if |events| == 1 then t.pc.Idle? else !t.pc.Idle? && !t.pc.Draining? && UntilIdle(c, t, events[1..])
  }

  /** The repos a run goes on to, one after the other. */
  ghost function Turns(c: Config, s: State, events: seq<Event>): seq<nat>
    requires UntilIdle(c, s, events)
    decreases events
  {
    var t := Do(c, s, events[0]);
    var turn := if PcRepo(t.pc) == PcRepo(s.pc) || PcRepo(t.pc).None? then [] else [PcRepo(t.pc).value];
    if |events| == 1 then turn else turn + Turns(c, t, events[1..])
  }

  /** The numbers from `lo` up to but not including `hi`. */
  function From(lo: nat, hi: nat): seq<nat>
    decreases hi - lo
  {
    if lo >= hi then [] else [lo] + From(lo + 1, hi)
  }

  /** The phases of a tick, in the order it takes them. */
  function Phase(pc: Pc): nat {
    match pc
    case AtMerge(_) => 1
    case AtSweep(_) => 2
    case SweepAwait(_, _) => 2
    case AtResume(_) => 3
    case AtCi(_) => 4
    case CiAwait(_, _) => 4
    case AtMaster(_) => 5
    case AtAdmit(_) => 6
    case Admitting(_, _, _, _) => 6
    case Launching(_, _) => 7
    case ClaimAwait(_, _, _) => 7
    case _ => 0
  }

  /** The driver stays at its repo and goes on by one phase at most, except that a closed gate goes on to admission. */
  ghost predicate Stays(e: Event, from: Pc, to: Pc) {
    && PcRepo(to) == PcRepo(from) && Ticking(to) == Ticking(from)
    && (!e.EndSweepGated? ==> Phase(from) <= Phase(to) <= Phase(from) + 1)
  }

  lemma MoveStays(c: Config, s: State, e: Event)
    requires Enabled(c, s, e) && Moves(e) && !e.BootDone? && !e.EndTick? && !e.Throw? && PcRepo(s.pc).Some?
    ensures Stays(e, s.pc, Do(c, s, e).pc)
  {
  }

  lemma TakeStays(c: Config, s: State, e: Event)
    requires Enabled(c, s, e) && TakesSlot(e)
    ensures Stays(e, s.pc, Do(c, s, e).pc)
  {
  }

  lemma StepStays(c: Config, s: State, e: Event)
    requires Enabled(c, s, e) && !e.BootDone? && !e.EndTick? && !e.Throw? && PcRepo(s.pc).Some?
    ensures Stays(e, s.pc, Do(c, s, e).pc)
  {
    if Moves(e) {
      MoveStays(c, s, e);
    } else if TakesSlot(e) {
      TakeStays(c, s, e);
    }
  }

  lemma NextTurn(c: Config, s: State, e: Event)
    requires Enabled(c, s, e) && PcRepo(s.pc).Some? && PcRepo(s.pc).value < |c.ceilings|
    ensures var r, t := PcRepo(s.pc).value, Do(c, s, e);
            || PcRepo(t.pc) == Some(r)
            || (r + 1 < |c.ceilings| && PcRepo(t.pc) == Some(r + 1))
            || (r + 1 == |c.ceilings| && t.pc.Idle?)
  {
    if !e.BootDone? && !e.EndTick? && !e.Throw? {
      StepStays(c, s, e);
    }
  }

  lemma {:induction false} TurnsAreTheRest(c: Config, s: State, events: seq<Event>)
    requires UntilIdle(c, s, events) && PcRepo(s.pc).Some? && PcRepo(s.pc).value < |c.ceilings|
    ensures Turns(c, s, events) == From(PcRepo(s.pc).value + 1, |c.ceilings|)
    decreases |events|
  {
    var t := Do(c, s, events[0]);
    NextTurn(c, s, events[0]);
    if |events| > 1 {
      TurnsAreTheRest(c, t, events[1..]);
    }
  }

  /**
   * A round gives every repo its turn, once and in drive order, however long each takes, whatever
   * settles meanwhile and whichever ticks throw; and so does the start.
   */
  lemma EveryRepoHasItsTurn(c: Config, s: State, events: seq<Event>)
    requires UntilIdle(c, s, events) && |c.ceilings| > 0
    ensures s.pc.Idle? && events[0].BeginTick? ==> Turns(c, s, events) == From(0, |c.ceilings|)
    ensures s == Start(c) ==> [0] + Turns(c, s, events) == From(0, |c.ceilings|)
  {
    if s.pc.Idle? && events[0].BeginTick? {
      var t := Do(c, s, events[0]);
      TurnsAreTheRest(c, t, events[1..]);
    } else if s == Start(c) {
      TurnsAreTheRest(c, s, events);
    }
  }

  /** A run within one tick that neither throws nor finds the usage gate closed. */
  ghost predicate Undisturbed(c: Config, s: State, events: seq<Event>)
    decreases events
  {
    events == [] || (Enabled(c, s, events[0]) && !events[0].Throw? && !events[0].EndTick? && !events[0].EndSweepGated?
                     && Undisturbed(c, Do(c, s, events[0]), events[1..]))
  }

  ghost function Phases(c: Config, s: State, events: seq<Event>): seq<nat>
    requires Undisturbed(c, s, events)
    decreases events
  {
    if events == [] then []
    else
      var t := Do(c, s, events[0]);
      (if Phase(t.pc) == Phase(s.pc) then [] else [Phase(t.pc)]) + Phases(c, t, events[1..])
  }

  ghost function Last(c: Config, s: State, events: seq<Event>): State
    requires Undisturbed(c, s, events)
    decreases events
  {
    if events == [] then s else Last(c, Do(c, s, events[0]), events[1..])
  }

  lemma OneOn(from: nat, next: nat, last: nat)
    requires from <= next <= from + 1 && next <= last
    ensures From(from + 1, last + 1) == (if next == from then [] else [next]) + From(next + 1, last + 1)
  {
  }

  /**
   * A tick takes its phases in order and skips none: the merge worker, the sweep, the resumes, the
   * CI poller, the master, admission and then the launches.
   */
  lemma {:induction false} TickTakesEveryPhase(c: Config, s: State, events: seq<Event>)
    requires Undisturbed(c, s, events) && Ticking(s.pc).Some?
    ensures var t := Last(c, s, events);
            && Ticking(t.pc) == Ticking(s.pc) && Phase(t.pc) >= Phase(s.pc)
            && Phases(c, s, events) == From(Phase(s.pc) + 1, Phase(t.pc) + 1)
    decreases |events|
  {
    if events != [] {
      var next := Do(c, s, events[0]);
      StepStays(c, s, events[0]);
      TickTakesEveryPhase(c, next, events[1..]);
      OneOn(Phase(s.pc), Phase(next.pc), Phase(Last(c, next, events[1..]).pc));
    }
  }

  // ---------------------------------------------------------------- rounds end

  const EARLY_PHASES: seq<Event> := [SkipMerge, EndSweep, EndResume, EndCi]
  const LATE_PHASES: seq<Event> := [SkipMaster, CountSlots, Pick([]), EndTick]

  lemma FourMore(c: Config, s: State, e: seq<Event>, rest: seq<Event>, a: State, b: State, d: State)
    requires |e| == 4 && Enabled(c, s, e[0]) && Do(c, s, e[0]) == a && Enabled(c, a, e[1]) && Do(c, a, e[1]) == b
    requires Enabled(c, b, e[2]) && Do(c, b, e[2]) == d && Enabled(c, d, e[3])
    ensures Run(c, s, e + rest) == Run(c, Do(c, d, e[3]), rest)
  {
    assert (e + rest)[1..] == e[1..] + rest && (e[1..] + rest)[1..] == e[2..] + rest;
    assert (e[2..] + rest)[1..] == e[3..] + rest && (e[3..] + rest)[1..] == rest;
    assert Run(c, s, e + rest) == Run(c, a, e[1..] + rest);
    assert Run(c, a, e[1..] + rest) == Run(c, b, e[2..] + rest);
    assert Run(c, b, e[2..] + rest) == Run(c, d, e[3..] + rest);
  }

  lemma QuietEarly(c: Config, s: State, r: nat, rest: seq<Event>)
    requires s.pc == AtMerge(r)
    ensures Run(c, s, EARLY_PHASES + rest) == Run(c, s.(pc := AtMaster(r)), rest)
  {
    FourMore(c, s, EARLY_PHASES, rest, s.(pc := AtSweep(r)), s.(pc := AtResume(r)), s.(pc := AtCi(r)));
  }

  lemma QuietLate(c: Config, s: State, r: nat, rest: seq<Event>)
    requires r < |c.ceilings| && s.pc == AtMaster(r)
    ensures Run(c, s, LATE_PHASES + rest) == Run(c, s.(pc := if r + 1 < |c.ceilings| then AtMerge(r + 1) else Idle), rest)
  {
    FourMore(c, s, LATE_PHASES, rest, s.(pc := AtAdmit(r)), s.(pc := Admitting(r, AvailableSlots(c, s, r), {}, {})), s.(pc := Launching(r, [])));
  }

  /** So many ticks of repos that have nothing to do, every phase of each. */
  function QuietTicks(n: nat): seq<Event> { if n == 0 then [] else EARLY_PHASES + (LATE_PHASES + QuietTicks(n - 1)) }

  lemma {:induction false} QuietTicksEnd(c: Config, s: State, r: nat)
    requires r < |c.ceilings| && s.pc == AtMerge(r)
    ensures Run(c, s, QuietTicks(|c.ceilings| - r)) == Some(s.(pc := Idle))
    decreases |c.ceilings| - r
  {
    var rest := QuietTicks(|c.ceilings| - r - 1);
    QuietEarly(c, s, r, LATE_PHASES + rest);
    QuietLate(c, s.(pc := AtMaster(r)), r, rest);
    if r + 1 < |c.ceilings| {
      QuietTicksEnd(c, s.(pc := AtMerge(r + 1)), r + 1);
    }
  }

  /** From every idle state a round can be driven to its end: with nothing to do it changes nothing. */
  lemma QuietRoundEnds(c: Config, s: State)
    requires s.pc.Idle?
    ensures Run(c, s, [BeginTick] + QuietTicks(|c.ceilings|)) == Some(s)
  {
    assert ([BeginTick] + QuietTicks(|c.ceilings|))[1..] == QuietTicks(|c.ceilings|);
    if |c.ceilings| > 0 {
      QuietTicksEnd(c, s.(pc := AtMerge(0)), 0);
    }
    assert s.(pc := Idle) == s;
  }

  // ---------------------------------------------------------------- what is picked is launched, and when nothing is

  function Launches(n: nat): seq<Event> { if n == 0 then [] else [Claim, Claimed] + Launches(n - 1) }

  lemma TwoMore(c: Config, s: State, e: Event, d: Event, rest: seq<Event>, between: State)
    requires Enabled(c, s, e) && Do(c, s, e) == between && Enabled(c, between, d)
    ensures Run(c, s, [e, d] + rest) == Run(c, Do(c, between, d), rest)
  {
    assert ([e, d] + rest)[1..] == [d] + rest && ([d] + rest)[1..] == rest;
    assert Run(c, s, [e, d] + rest) == Run(c, between, [d] + rest);
  }

  lemma OneLaunch(c: Config, s: State, r: nat, q: seq<nat>, rest: seq<Event>) returns (t: State)
    requires s.pc == Launching(r, q) && q != []
    ensures t.pc == Launching(r, q[1..]) && t.builds.Keys == s.builds.Keys + {Slot(r, q[0])}
    ensures Run(c, s, [Claim, Claimed] + rest) == Run(c, t, rest)
  {
    var waiting := s.(pc := ClaimAwait(r, q[0], q[1..]));
    t := Occupy(waiting, Slot(r, q[0]), false, Launching(r, q[1..]));
    TwoMore(c, s, Claim, Claimed, rest, waiting);
  }

  function SlotsFor(r: nat, q: seq<nat>): set<Slot> { set n | n in q :: Slot(r, n) }

  lemma FirstSlot(r: nat, q: seq<nat>)
    requires q != []
    ensures SlotsFor(r, q) == {Slot(r, q[0])} + SlotsFor(r, q[1..])
  {
    assert q == [q[0]] + q[1..];
  }

  lemma {:induction false} LaunchesAll(c: Config, s: State, r: nat, q: seq<nat>) returns (t: State)
    requires s.pc == Launching(r, q)
    ensures Run(c, s, Launches(|q|)) == Some(t)
    ensures t.pc == Launching(r, []) && t.builds.Keys == s.builds.Keys + SlotsFor(r, q)
    decreases |q|
  {
    if q == [] {
      t := s;
    } else {
      var later := q[1..];
      var next := OneLaunch(c, s, r, q, Launches(|later|));
      FirstSlot(r, q);
      t := LaunchesAll(c, next, r, later);
    }
  }

  /** Once picked, all the issues can be launched one after the other, each into a slot of its own and all within the cap. */
  lemma PicksLaunch(c: Config, s: State)
    requires Inv(c, s) && s.pc.Launching?
    ensures var t := Run(c, s, Launches(|s.pc.picked|));
            && t.Some? && t.value.pc == Launching(s.pc.repo, [])
            && (forall k :: k in t.value.builds <==> k in s.builds || (k.repo == s.pc.repo && k.issue in s.pc.picked))
            && (forall n | n in s.pc.picked :: Slot(s.pc.repo, n) !in s.builds) && |t.value.builds| <= c.cap
  {
    var t := LaunchesAll(c, s, s.pc.repo, s.pc.picked);
    RunKeeps(c, s, Launches(|s.pc.picked|));
    LaunchedWithinCap(c, s, t);
    PickedAreFree(c, s);
  }

  lemma PickedAreFree(c: Config, s: State)
    requires Reserved(c, s) && s.pc.Launching?
    ensures forall n | n in s.pc.picked :: Slot(s.pc.repo, n) !in s.builds
  {
  }

  lemma LaunchedWithinCap(c: Config, s: State, t: State)
    requires Inv(c, t) && s.pc.Launching? && t.builds.Keys == s.builds.Keys + SlotsFor(s.pc.repo, s.pc.picked)
    ensures |t.builds| <= c.cap
    ensures forall k :: k in t.builds <==> k in s.builds || (k.repo == s.pc.repo && k.issue in s.pc.picked)
  {
  }

  /** The driver can take no build slot before its next tick, or ever while draining. */
  predicate Closed(pc: Pc) {
    pc.Draining? || (pc.Admitting? && pc.slots == 0) || (pc.Launching? && pc.picked == [])
  }

  lemma DrainingStep(c: Config, s: State, e: Event)
    requires Enabled(c, s, e) && s.pc.Draining?
    ensures var t := Do(c, s, e);
            t.pc.Draining? && forall k | k in t.builds :: k in s.builds
  {
  }

  lemma ClosedTickStep(c: Config, s: State, e: Event)
    requires Enabled(c, s, e) && Closed(s.pc) && !s.pc.Draining? && !e.EndTick? && !e.Throw?
    ensures var t := Do(c, s, e);
            Closed(t.pc) && forall k | k in t.builds :: k in s.builds
  {
  }

  lemma {:induction false} ClosedRun(c: Config, s: State, events: seq<Event>)
    requires Run(c, s, events).Some? && Closed(s.pc)
    requires s.pc.Draining? || forall e | e in events :: !e.EndTick? && !e.Throw?
    ensures forall k | k in Run(c, s, events).value.builds :: k in s.builds
    decreases |events|
  {
    if events != [] {
      assert events[0] in events;
      if s.pc.Draining? {
        DrainingStep(c, s, events[0]);
      } else {
        ClosedTickStep(c, s, events[0]);
      }
      ClosedRun(c, Do(c, s, events[0]), events[1..]);
    }
  }

  /** Once the usage gate is found closed the tick takes no build slot any more, and once it drains the daemon takes none ever. */
  lemma NoNewSessions(c: Config, s: State, events: seq<Event>)
    requires Run(c, s, events).Some? && events != []
    requires events[0].BeginDrain? || (events[0].EndSweepGated? && forall e | e in events :: !e.EndTick? && !e.Throw?)
    ensures forall k | k in Run(c, s, events).value.builds :: k in s.builds
  {
    ClosedRun(c, Do(c, s, events[0]), events[1..]);
  }
}
