/**
 * The slot protocol of the multi-repo daemon as a state machine: one driver that ticks the
 * reconcilers in turn, and session promises that may settle between any two of its steps.
 */
module SlotProtocol {
  import opened Wrappers

  /** An issue of one target; `repo` is the reconciler's place in the drive order. */
  datatype Slot = Slot(repo: nat, issue: nat)

  /** A started session's promise. `adjudicating` holds from a master's start to the release of its lease. */
  datatype Session = Session(slot: Slot, merge: bool, adjudicating: bool)

  /** Where the driver is. The states named `…Await` are suspended at an await. */
  datatype Pc =
    | Boot(repo: nat) | BootAwait(repo: nat, issue: nat)
    | Idle
    | AtMerge(repo: nat)
    | AtSweep(repo: nat) | SweepAwait(repo: nat, issue: nat)
    | AtResume(repo: nat)
    | AtCi(repo: nat) | CiAwait(repo: nat, issue: nat)
    | AtMaster(repo: nat)
    | AtAdmit(repo: nat)
    | Admitting(repo: nat, slots: nat, seen: set<nat>, free: set<nat>)
    | Launching(repo: nat, picked: seq<nat>) | ClaimAwait(repo: nat, issue: nat, picked: seq<nat>)
    | Draining

  /** The build pools and merge leases of all repos, keyed by repo and issue; the unsettled promises; the master lease. */
  datatype State = State(
    builds: map<Slot, nat>,
    merges: map<Slot, nat>,
    live: map<nat, Session>,
    next: nat,
    lease: Option<nat>,
    pc: Pc)

  /** The operator's settings: the global cap and each target's own ceiling, if it has one. */
  datatype Config = Config(cap: nat, ceilings: seq<Option<nat>>)

  function Of(pool: map<Slot, nat>, repo: nat): set<Slot> { set k | k in pool && k.repo == repo }

  predicate HasCapacity(c: Config, s: State) { |s.builds| < c.cap }

  function Max0(n: int): nat { if n < 0 then 0 else n }

  function Min(a: int, b: int): int { if a < b then a else b }

  /** The slots a fresh fill of this repo may take. */
  function AvailableSlots(c: Config, s: State, repo: nat): nat
    requires repo < |c.ceilings|
  {
    var global := Max0(c.cap - |s.builds|);
    match c.ceilings[repo]
    case None => global
    case Some(ceiling) => Max0(Min(global, ceiling - |Of(s.builds, repo)|))
  }

  /** Hold a build slot until the work settles. */
  function Occupy(s: State, slot: Slot, master: bool, pc: Pc): State {
    s.(builds := s.builds[slot := s.next],
       live := s.live[s.next := Session(slot, false, master)],
       next := s.next + 1,
       lease := if master then Some(s.next) else s.lease,
       pc := pc)
  }

  /** Hold a repo's merge lease until the integration settles. */
  function Lease(s: State, slot: Slot, pc: Pc): State {
    s.(merges := s.merges[slot := s.next],
       live := s.live[s.next := Session(slot, true, false)],
       next := s.next + 1,
       pc := pc)
  }

  /** The next reconciler's tick, or the sleep after the last. */
  function After(c: Config, repo: nat): Pc { if repo + 1 < |c.ceilings| then AtMerge(repo + 1) else Idle }

  function AfterBoot(c: Config, repo: nat): Pc { if repo + 1 < |c.ceilings| then Boot(repo + 1) else Idle }

  /** The repo whose tick the driver is in. */
  function Ticking(pc: Pc): Option<nat> {
    match pc
    case Boot(_) => None
    case BootAwait(_, _) => None
    case Idle => None
    case Draining => None
    case AtMerge(r) => Some(r)
    case AtSweep(r) => Some(r)
    case SweepAwait(r, _) => Some(r)
    case AtResume(r) => Some(r)
    case AtCi(r) => Some(r)
    case CiAwait(r, _) => Some(r)
    case AtMaster(r) => Some(r)
    case AtAdmit(r) => Some(r)
    case Admitting(r, _, _, _) => Some(r)
    case Launching(r, _) => Some(r)
    case ClaimAwait(r, _, _) => Some(r)
  }

  /** The guard of the merge worker: a free lease, and a run that has left its build slot. */
  predicate MayLease(s: State, slot: Slot) {
    Of(s.merges, slot.repo) == {} && slot !in s.builds
  }

  /** The guard of every build slot taken at once: capacity, and the issue not already building. */
  predicate MayOccupy(c: Config, s: State, slot: Slot) { HasCapacity(c, s) && slot !in s.builds }

  function Elements(q: seq<nat>): set<nat> { set n | n in q }

  predicate Distinct(q: seq<nat>) { forall i, j | 0 <= i < j < |q| :: q[i] != q[j] }

  // ---------------------------------------------------------------- steps

  datatype Event =
    | BootOrphan(issue: nat) | BootRecover | BootLeave | BootDone
    | BeginTick
    | LeaseMerge(issue: nat) | SkipMerge
    | SweepOrphan(issue: nat) | Recover | LeaveOrphan | EndSweep | EndSweepGated
    | Resume(issue: nat) | ResumeMaster(issue: nat) | EndResume
    | PollCi(issue: nat) | AdvanceCi | KeepParked | EndCi
    | DispatchMaster(issue: nat) | SkipMaster
    | CountSlots | Examine(issue: nat) | Pick(queue: seq<nat>)
    | Claim | Claimed | ClaimFailed | EndTick
    | Throw
    | BeginDrain | PumpMerge(slot: Slot)
    | Release(session: nat) | Settle(session: nat)

  /** When a step can be taken: exactly the guards the code checks at that point, and no others. */
  predicate Enabled(c: Config, s: State, e: Event) {
    match e
    case BootOrphan(n) => s.pc.Boot? && Slot(s.pc.repo, n) !in s.builds
    case BootRecover => s.pc.BootAwait? && HasCapacity(c, s)
    case BootLeave => s.pc.BootAwait?
    case BootDone => s.pc.Boot? || s.pc.BootAwait?
    case BeginTick => s.pc.Idle?
    case LeaseMerge(n) => s.pc.AtMerge? && MayLease(s, Slot(s.pc.repo, n))
    case SkipMerge => s.pc.AtMerge?
    case SweepOrphan(n) => s.pc.AtSweep? && Slot(s.pc.repo, n) !in s.builds
    case Recover => s.pc.SweepAwait? && HasCapacity(c, s)
    case LeaveOrphan => s.pc.SweepAwait?
    case EndSweep => s.pc.AtSweep? || s.pc.SweepAwait?
    case EndSweepGated => s.pc.AtSweep? || s.pc.SweepAwait?
    case Resume(n) => s.pc.AtResume? && MayOccupy(c, s, Slot(s.pc.repo, n))
    case ResumeMaster(n) => s.pc.AtResume? && MayOccupy(c, s, Slot(s.pc.repo, n)) && s.lease.None?
    case EndResume => s.pc.AtResume?
    case PollCi(n) => s.pc.AtCi? && MayOccupy(c, s, Slot(s.pc.repo, n)) && Slot(s.pc.repo, n) !in s.merges
    case AdvanceCi => s.pc.CiAwait?
    case KeepParked => s.pc.CiAwait?
    case EndCi => s.pc.AtCi?
    case DispatchMaster(n) =>
      s.pc.AtMaster? && s.lease.None? && MayOccupy(c, s, Slot(s.pc.repo, n)) && Slot(s.pc.repo, n) !in s.merges
    case SkipMaster => s.pc.AtMaster?
    case CountSlots => s.pc.AtAdmit? && s.pc.repo < |c.ceilings|
    case Examine(n) => s.pc.Admitting? && n !in s.pc.seen
    case Pick(q) => s.pc.Admitting? && Distinct(q) && Elements(q) <= s.pc.free && |q| <= s.pc.slots
    case Claim => s.pc.Launching? && s.pc.picked != []
    case Claimed => s.pc.ClaimAwait?
    case ClaimFailed => s.pc.ClaimAwait?
    case EndTick => s.pc.Launching? && s.pc.picked == []
    case Throw => Ticking(s.pc).Some?
    case BeginDrain => s.pc.Idle?
    case PumpMerge(slot) => s.pc.Draining? && slot.repo < |c.ceilings| && MayLease(s, slot)
    case Release(id) => s.lease == Some(id)
    case Settle(id) => id in s.live && !s.live[id].adjudicating
  }

  function Do(c: Config, s: State, e: Event): State
    requires Enabled(c, s, e)
  {
    match e
    case BootOrphan(n) => s.(pc := BootAwait(s.pc.repo, n))
    case BootRecover => Occupy(s, Slot(s.pc.repo, s.pc.issue), false, Boot(s.pc.repo))
    case BootLeave => s.(pc := Boot(s.pc.repo))
    case BootDone => s.(pc := AfterBoot(c, s.pc.repo))
    case BeginTick => s.(pc := if |c.ceilings| > 0 then AtMerge(0) else Idle)
    case LeaseMerge(n) => Lease(s, Slot(s.pc.repo, n), AtSweep(s.pc.repo))
    case SkipMerge => s.(pc := AtSweep(s.pc.repo))
    case SweepOrphan(n) => s.(pc := SweepAwait(s.pc.repo, n))
    case Recover => Occupy(s, Slot(s.pc.repo, s.pc.issue), false, AtSweep(s.pc.repo))
    case LeaveOrphan => s.(pc := AtSweep(s.pc.repo))
    case EndSweep => s.(pc := AtResume(s.pc.repo))
    case EndSweepGated => s.(pc := Admitting(s.pc.repo, 0, {}, {}))
    case Resume(n) => Occupy(s, Slot(s.pc.repo, n), false, s.pc)
    case ResumeMaster(n) => Occupy(s, Slot(s.pc.repo, n), true, s.pc)
    case EndResume => s.(pc := AtCi(s.pc.repo))
    case PollCi(n) => s.(pc := CiAwait(s.pc.repo, n))
    case AdvanceCi => Occupy(s, Slot(s.pc.repo, s.pc.issue), false, AtCi(s.pc.repo))
    case KeepParked => s.(pc := AtCi(s.pc.repo))
    case EndCi => s.(pc := AtMaster(s.pc.repo))
    case DispatchMaster(n) => Occupy(s, Slot(s.pc.repo, n), true, AtAdmit(s.pc.repo))
    case SkipMaster => s.(pc := AtAdmit(s.pc.repo))
    case CountSlots => s.(pc := Admitting(s.pc.repo, AvailableSlots(c, s, s.pc.repo), {}, {}))
    case Examine(n) =>
      s.(pc := s.pc.(seen := s.pc.seen + {n},
                     free := if Slot(s.pc.repo, n) in s.builds then s.pc.free else s.pc.free + {n}))
    case Pick(q) => s.(pc := Launching(s.pc.repo, q))
    case Claim => s.(pc := ClaimAwait(s.pc.repo, s.pc.picked[0], s.pc.picked[1..]))
    case Claimed => Occupy(s, Slot(s.pc.repo, s.pc.issue), false, Launching(s.pc.repo, s.pc.picked))
    case ClaimFailed => s.(pc := Launching(s.pc.repo, s.pc.picked))
    case EndTick => s.(pc := After(c, s.pc.repo))
    case Throw => s.(pc := After(c, Ticking(s.pc).value))
    case BeginDrain => s.(pc := Draining)
    case PumpMerge(slot) => Lease(s, slot, s.pc)
    case Release(id) =>
      s.(lease := None, live := if id in s.live then s.live[id := s.live[id].(adjudicating := false)] else s.live)
    case Settle(id) =>
      var slot := s.live[id].slot;
      if s.live[id].merge then s.(live := s.live - {id}, merges := s.merges - {slot})
      else s.(live := s.live - {id}, builds := s.builds - {slot})
  }

  function Start(c: Config): State {
    State(map[], map[], map[], 0, None, if |c.ceilings| > 0 then Boot(0) else Idle)
  }

  // ---------------------------------------------------------------- the invariant

  /** The slots of a pool and the unsettled promises of its kind are each other's: settling frees its own slot only. */
  ghost predicate PoolOwned(pool: map<Slot, nat>, live: map<nat, Session>, merge: bool) {
    && (forall k | k in pool :: pool[k] in live && live[pool[k]].slot == k && live[pool[k]].merge == merge)
    && (forall i | i in live && live[i].merge == merge :: live[i].slot in pool && pool[live[i].slot] == i)
  }

  ghost predicate Numbered(s: State) { forall i | i in s.live :: i < s.next }

  ghost predicate Owned(s: State) {
    PoolOwned(s.builds, s.live, false) && PoolOwned(s.merges, s.live, true) && Numbered(s)
  }

  ghost predicate OneMerge(s: State) {
    forall a, b | a in s.merges && b in s.merges && a.repo == b.repo :: a == b
  }

  /** Only the lease's holder is adjudicating, and the holder is running. */
  ghost predicate OneMaster(s: State) {
    && (forall i | i in s.live && s.live[i].adjudicating :: s.lease == Some(i))
    && (s.lease.Some? ==> s.lease.value in s.live && s.live[s.lease.value].adjudicating)
  }

  /** What a suspended driver may rely on when it wakes, although other slots were freed meanwhile. */
  ghost predicate Reserved(c: Config, s: State) {
    match s.pc
    case BootAwait(r, n) => Slot(r, n) !in s.builds
    case SweepAwait(r, n) => Slot(r, n) !in s.builds
    case CiAwait(r, n) => HasCapacity(c, s) && Slot(r, n) !in s.builds && Slot(r, n) !in s.merges
    case Admitting(r, slots, _, free) => Fits(c, s, r, slots) && forall n | n in free :: Slot(r, n) !in s.builds
    case Launching(r, q) => Fits(c, s, r, |q|) && Distinct(q) && forall n | n in q :: Slot(r, n) !in s.builds
    case ClaimAwait(r, n, q) =>
      Fits(c, s, r, |q| + 1) && Distinct([n] + q) && forall m | m in [n] + q :: Slot(r, m) !in s.builds
    case _ => true
  }

  /** So many more launches fit under the cap and under the repo's own ceiling. */
  ghost predicate Fits(c: Config, s: State, repo: nat, n: nat) {
    n > 0 ==> |s.builds| + n <= c.cap && BelowCeiling(c, s, repo, n)
  }

  ghost predicate BelowCeiling(c: Config, s: State, repo: nat, n: nat) {
    repo < |c.ceilings| && (c.ceilings[repo].Some? ==> |Of(s.builds, repo)| + n <= c.ceilings[repo].value)
  }

  ghost predicate Inv(c: Config, s: State) {
    && |s.builds| <= c.cap
    && Owned(s) && OneMerge(s) && OneMaster(s) && Reserved(c, s)
  }

  // ---------------------------------------------------------------- what every step keeps

  lemma OneMoreSlot(pool: map<Slot, nat>, slot: Slot, id: nat)
    requires slot !in pool
    ensures |pool[slot := id]| == |pool| + 1
    ensures |Of(pool[slot := id], slot.repo)| == |Of(pool, slot.repo)| + 1
  {
    assert pool[slot := id].Keys == pool.Keys + {slot};
    assert Of(pool[slot := id], slot.repo) == Of(pool, slot.repo) + {slot};
  }

  lemma OneLessSlot(pool: map<Slot, nat>, slot: Slot, repo: nat)
    requires slot in pool
    ensures |pool - {slot}| == |pool| - 1
    ensures Of(pool - {slot}, repo) <= Of(pool, repo) && |Of(pool - {slot}, repo)| <= |Of(pool, repo)|
  {
    assert (pool - {slot}).Keys == pool.Keys - {slot};
    assert |pool| == |pool.Keys|;
    SubsetSize(Of(pool - {slot}, repo), Of(pool, repo));
  }

  lemma {:induction false} SubsetSize(a: set<Slot>, b: set<Slot>)
    requires a <= b
    ensures |a| <= |b|
  {
    if a != {} {
      var x :| x in a;
      SubsetSize(a - {x}, b - {x});
    }
  }

  /** A new promise takes its slot in its own pool and leaves the other pool alone. */
  lemma TakeKeepsPools(pool: map<Slot, nat>, other: map<Slot, nat>, live: map<nat, Session>, id: nat, session: Session)
    requires PoolOwned(pool, live, session.merge) && PoolOwned(other, live, !session.merge)
    requires id !in live && session.slot !in pool
    ensures PoolOwned(pool[session.slot := id], live[id := session], session.merge)
    ensures PoolOwned(other, live[id := session], !session.merge)
  {
  }

  lemma OccupyKeeps(s: State, slot: Slot, master: bool, pc: Pc)
    requires Owned(s) && OneMerge(s) && OneMaster(s) && slot !in s.builds && (master ==> s.lease.None?)
    ensures var t := Occupy(s, slot, master, pc);
            && Owned(t) && OneMerge(t) && OneMaster(t) && |t.builds| == |s.builds| + 1
            && |Of(t.builds, slot.repo)| == |Of(s.builds, slot.repo)| + 1
  {
    OneMoreSlot(s.builds, slot, s.next);
    TakeKeepsPools(s.builds, s.merges, s.live, s.next, Session(slot, false, master));
  }

  lemma FirstMerge(s: State, slot: Slot, pc: Pc)
    requires OneMerge(s) && Of(s.merges, slot.repo) == {}
    ensures OneMerge(Lease(s, slot, pc)) && slot !in s.merges
  {
    assert forall k | k in s.merges && k.repo == slot.repo :: k in Of(s.merges, slot.repo);
  }

  lemma LeaseKeeps(s: State, slot: Slot, pc: Pc)
    requires Owned(s) && OneMerge(s) && OneMaster(s) && Of(s.merges, slot.repo) == {}
    ensures var t := Lease(s, slot, pc);
            Owned(t) && OneMerge(t) && OneMaster(t) && t.builds == s.builds
  {
    FirstMerge(s, slot, pc);
    TakeKeepsPools(s.merges, s.builds, s.live, s.next, Session(slot, true, false));
  }

  /** A session's progress does not move its slot. */
  lemma RelabelKeepsPool(pool: map<Slot, nat>, live: map<nat, Session>, id: nat, merge: bool)
    requires PoolOwned(pool, live, merge) && id in live
    ensures PoolOwned(pool, live[id := live[id].(adjudicating := false)], merge)
  {
  }

  lemma ReleaseKeeps(c: Config, s: State, id: nat)
    requires Inv(c, s) && Enabled(c, s, Release(id))
    ensures Inv(c, Do(c, s, Release(id)))
  {
    RelabelKeepsPool(s.builds, s.live, id, false);
    RelabelKeepsPool(s.merges, s.live, id, true);
    ReservedSurvives(c, s, Do(c, s, Release(id)));
  }

  /** Freeing slots never breaks what a suspended driver relies on. */
  lemma ReservedSurvives(c: Config, s: State, t: State)
    requires Reserved(c, s) && t.pc == s.pc && |t.builds| <= |s.builds|
    requires (forall k | k in t.builds :: k in s.builds) && forall k | k in t.merges :: k in s.merges
    ensures Reserved(c, t)
  {
    forall r
      ensures |Of(t.builds, r)| <= |Of(s.builds, r)|
    {
      SubsetSize(Of(t.builds, r), Of(s.builds, r));
    }
  }

  lemma DropKeepsPools(pool: map<Slot, nat>, other: map<Slot, nat>, live: map<nat, Session>, id: nat)
    requires id in live && PoolOwned(pool, live, live[id].merge) && PoolOwned(other, live, !live[id].merge)
    ensures PoolOwned(pool - {live[id].slot}, live - {id}, live[id].merge)
    ensures PoolOwned(other, live - {id}, !live[id].merge)
  {
  }

  lemma SettleKeepsOwned(c: Config, s: State, id: nat)
    requires Inv(c, s) && Enabled(c, s, Settle(id))
    ensures var t := Do(c, s, Settle(id));
            Owned(t) && OneMerge(t) && OneMaster(t)
  {
    if s.live[id].merge {
      DropKeepsPools(s.merges, s.builds, s.live, id);
    } else {
      DropKeepsPools(s.builds, s.merges, s.live, id);
    }
  }

  lemma SettleKeeps(c: Config, s: State, id: nat)
    requires Inv(c, s) && Enabled(c, s, Settle(id))
    ensures Inv(c, Do(c, s, Settle(id)))
  {
    var t := Do(c, s, Settle(id));
    SettleKeepsOwned(c, s, id);
    if !s.live[id].merge {
      OneLessSlot(s.builds, s.live[id].slot, 0);
    }
    ReservedSurvives(c, s, t);
  }

  /** Taking a slot with capacity and no suspended reliance keeps everything. */
  lemma OccupySafe(c: Config, s: State, slot: Slot, master: bool, pc: Pc)
    requires Inv(c, s) && MayOccupy(c, s, slot) && (master ==> s.lease.None?)
    requires pc.Boot? || pc.AtSweep? || pc.AtResume? || pc.AtCi? || pc.AtAdmit?
    ensures Inv(c, Occupy(s, slot, master, pc))
  {
    OccupyKeeps(s, slot, master, pc);
  }

  predicate TakesSlot(e: Event) {
    e.BootRecover? || e.Recover? || e.Resume? || e.ResumeMaster? || e.AdvanceCi? || e.DispatchMaster?
  }

  /** The steps that take a build slot. */
  lemma OccupyStepKeeps(c: Config, s: State, e: Event)
    requires Inv(c, s) && Enabled(c, s, e) && TakesSlot(e)
    ensures Inv(c, Do(c, s, e))
  {
    match e
    case BootRecover => OccupySafe(c, s, Slot(s.pc.repo, s.pc.issue), false, Boot(s.pc.repo));
    case Recover => OccupySafe(c, s, Slot(s.pc.repo, s.pc.issue), false, AtSweep(s.pc.repo));
    case Resume(n) => OccupySafe(c, s, Slot(s.pc.repo, n), false, s.pc);
    case ResumeMaster(n) => OccupySafe(c, s, Slot(s.pc.repo, n), true, s.pc);
    case AdvanceCi => OccupySafe(c, s, Slot(s.pc.repo, s.pc.issue), false, AtCi(s.pc.repo));
    case DispatchMaster(n) => OccupySafe(c, s, Slot(s.pc.repo, n), true, AtAdmit(s.pc.repo));
  }

  lemma LeaseStepKeeps(c: Config, s: State, e: Event)
    requires Inv(c, s) && Enabled(c, s, e) && (e.LeaseMerge? || e.PumpMerge?)
    ensures Inv(c, Do(c, s, e))
  {
    match e
    case LeaseMerge(n) => LeaseKeeps(s, Slot(s.pc.repo, n), AtSweep(s.pc.repo));
    case PumpMerge(slot) => LeaseKeeps(s, slot, s.pc);
  }

  /** A landed claim takes exactly one of the slots counted for it, and leaves the rest launchable. */
  lemma ClaimedKeeps(c: Config, s: State)
    requires Inv(c, s) && Enabled(c, s, Claimed)
    ensures Inv(c, Do(c, s, Claimed))
    ensures BelowCeiling(c, Do(c, s, Claimed), s.pc.repo, 0)
  {
    var r, n, q := s.pc.repo, s.pc.issue, s.pc.picked;
    OccupyKeeps(s, Slot(r, n), false, Launching(r, q));
    RestStillFits(c, s, Occupy(s, Slot(r, n), false, Launching(r, q)), r, n, q);
  }

  /** Once one of the counted launches has its slot, the others still fit. */
  lemma RestStillFits(c: Config, s: State, t: State, r: nat, n: nat, q: seq<nat>)
    requires Fits(c, s, r, |q| + 1) && Distinct([n] + q) && forall m | m in [n] + q :: Slot(r, m) !in s.builds
    requires |t.builds| == |s.builds| + 1 && |Of(t.builds, r)| == |Of(s.builds, r)| + 1
    requires forall k | k in t.builds :: k in s.builds || k == Slot(r, n)
    ensures Fits(c, t, r, |q|) && BelowCeiling(c, t, r, 0) && |t.builds| <= c.cap
    ensures Distinct(q) && forall m | m in q :: Slot(r, m) !in t.builds
  {
    Tail(n, q);
    assert forall m | m in q :: m in [n] + q;
  }

  lemma Tail(n: nat, q: seq<nat>)
    requires Distinct([n] + q)
    ensures Distinct(q) && n !in q
  {
    forall i, j | 0 <= i < j < |q|
      ensures q[i] != q[j]
    {
      assert ([n] + q)[i + 1] != ([n] + q)[j + 1];
    }
    forall i | 0 <= i < |q|
      ensures q[i] != n
    {
      assert ([n] + q)[0] != ([n] + q)[i + 1];
    }
  }

  lemma ClaimKeeps(c: Config, s: State, e: Event)
    requires Inv(c, s) && Enabled(c, s, e) && (e.Claim? || e.ClaimFailed?)
    ensures Inv(c, Do(c, s, e))
  {
    if e.Claim? {
      assert [s.pc.picked[0]] + s.pc.picked[1..] == s.pc.picked;
    } else {
      FailedClaimKeeps(c, s);
    }
  }

  lemma FailedClaimKeeps(c: Config, s: State)
    requires Inv(c, s) && Enabled(c, s, ClaimFailed)
    ensures Inv(c, Do(c, s, ClaimFailed))
  {
    Tail(s.pc.issue, s.pc.picked);
    assert forall m | m in s.pc.picked :: m in [s.pc.issue] + s.pc.picked;
  }

  lemma PickKeeps(c: Config, s: State, q: seq<nat>)
    requires Inv(c, s) && Enabled(c, s, Pick(q))
    ensures Inv(c, Do(c, s, Pick(q)))
  {
    forall n | n in q
      ensures Slot(s.pc.repo, n) !in s.builds
    {
      assert n in Elements(q);
    }
  }

  /** Steps that only move the driver. */
  predicate Moves(e: Event) {
    e.BootOrphan? || e.BootLeave? || e.BootDone? || e.BeginTick? || e.SkipMerge? || e.SweepOrphan? || e.LeaveOrphan?
    || e.EndSweep? || e.EndSweepGated? || e.EndResume? || e.PollCi? || e.KeepParked? || e.EndCi? || e.SkipMaster?
    || e.CountSlots? || e.Examine? || e.EndTick? || e.Throw? || e.BeginDrain?
  }

  lemma MovedKeeps(c: Config, s: State, pc: Pc)
    requires Inv(c, s) && Reserved(c, s.(pc := pc))
    ensures Inv(c, s.(pc := pc))
  {
  }

  lemma MoveKeepsReserved(c: Config, s: State, e: Event)
    requires Inv(c, s) && Enabled(c, s, e) && Moves(e)
    ensures Do(c, s, e) == s.(pc := Do(c, s, e).pc) && Reserved(c, Do(c, s, e))
  {
    match e
    case CountSlots => CountedSlotsFit(c, s, s.pc.repo);
    case Examine(n) =>
    case _ =>
  }

  /** The slots counted for a fill fit under both limits. */
  lemma CountedSlotsFit(c: Config, s: State, repo: nat)
    requires repo < |c.ceilings|
    ensures Fits(c, s, repo, AvailableSlots(c, s, repo))
  {
  }

  /** Every step keeps the invariant, whichever promises settle in between. */
  lemma StepKeeps(c: Config, s: State, e: Event)
    requires Inv(c, s) && Enabled(c, s, e)
    ensures Inv(c, Do(c, s, e))
  {
    if Moves(e) {
      MoveKeepsReserved(c, s, e);
      MovedKeeps(c, s, Do(c, s, e).pc);
    } else if TakesSlot(e) {
      OccupyStepKeeps(c, s, e);
    } else {
      match e
      case LeaseMerge(_) => LeaseStepKeeps(c, s, e);
      case PumpMerge(_) => LeaseStepKeeps(c, s, e);
      case Claim => ClaimKeeps(c, s, e);
      case ClaimFailed => ClaimKeeps(c, s, e);
      case Claimed => ClaimedKeeps(c, s);
      case Pick(q) => PickKeeps(c, s, q);
      case Release(id) => ReleaseKeeps(c, s, id);
      case Settle(id) => SettleKeeps(c, s, id);
    }
  }

  // ---------------------------------------------------------------- every run

  /** The state a run of steps reaches, if each is enabled where it is taken. */
  function Run(c: Config, s: State, events: seq<Event>): Option<State>
    decreases events
  {
    if events == [] then Some(s)
    else if Enabled(c, s, events[0]) then Run(c, Do(c, s, events[0]), events[1..])
    else None
  }

  lemma {:induction false} RunKeeps(c: Config, s: State, events: seq<Event>)
    requires Inv(c, s) && Run(c, s, events).Some?
    ensures Inv(c, Run(c, s, events).value)
    decreases events
  {
    if events != [] {
      StepKeeps(c, s, events[0]);
      RunKeeps(c, Do(c, s, events[0]), events[1..]);
    }
  }

  /**
   * In every reachable state: the build pools together hold no more runs than the cap, no issue
   * builds twice in one repo, no repo runs two integrations, and at most one master is at work.
   */
  lemma ReachableIsSafe(c: Config, events: seq<Event>)
    requires Run(c, Start(c), events).Some?
    ensures var s := Run(c, Start(c), events).value;
            && |s.builds| <= c.cap
            && |Building(s)| <= c.cap
            && (forall i, j | i in s.live && j in s.live && i != j && s.live[i].merge == s.live[j].merge ::
                  s.live[i].slot != s.live[j].slot)
            && (forall i, j | i in s.live && j in s.live && s.live[i].merge && s.live[j].merge
                              && s.live[i].slot.repo == s.live[j].slot.repo :: i == j)
            && (forall i, j | i in s.live && j in s.live && s.live[i].adjudicating && s.live[j].adjudicating :: i == j)
  {
    RunKeeps(c, Start(c), events);
    var s := Run(c, Start(c), events).value;
    BuildsAreSessions(s);
  }

  function Building(s: State): set<nat> { set i | i in s.live && !s.live[i].merge }

  function SlotsOf(s: State, ids: set<nat>): set<Slot>
    requires ids <= s.live.Keys
  {
    set i | i in ids :: s.live[i].slot
  }

  /** As many sessions build as slots are held. */
  lemma BuildsAreSessions(s: State)
    requires PoolOwned(s.builds, s.live, false)
    ensures |Building(s)| == |s.builds|
  {
    var slots := SlotsOf(s, Building(s));
    forall k | k in s.builds
      ensures k in slots
    {
      assert s.builds[k] in Building(s);
    }
    assert slots == s.builds.Keys;
    ImageSize(s, Building(s));
  }

  lemma {:induction false} ImageSize(s: State, ids: set<nat>)
    requires PoolOwned(s.builds, s.live, false) && ids <= Building(s)
    ensures |SlotsOf(s, ids)| == |ids|
  {
    if ids != {} {
      var x :| x in ids;
      ImageSize(s, ids - {x});
      assert SlotsOf(s, ids) == SlotsOf(s, ids - {x}) + {s.live[x].slot};
      assert s.live[x].slot !in SlotsOf(s, ids - {x});
    }
  }

  /** A settling promise frees its own slot and touches no other: repo, issue or lease. */
  lemma SettleFreesItsOwn(c: Config, s: State, id: nat)
    requires Inv(c, s) && Enabled(c, s, Settle(id))
    ensures var t, slot := Do(c, s, Settle(id)), s.live[id].slot;
            && (forall k :: k in t.builds <==> k in s.builds && (k != slot || s.live[id].merge))
            && (forall k :: k in t.merges <==> k in s.merges && (k != slot || !s.live[id].merge))
            && t.lease == s.lease && (forall i :: i in t.live <==> i in s.live && i != id)
  {
  }

  /** A fresh launch never lifts a repo above its own ceiling, in any run. */
  lemma FillRespectsCeiling(c: Config, events: seq<Event>)
    requires Run(c, Start(c), events).Some?
    requires Enabled(c, Run(c, Start(c), events).value, Claimed)
    ensures var s := Run(c, Start(c), events).value;
            BelowCeiling(c, Do(c, s, Claimed), s.pc.repo, 0)
  {
    RunKeeps(c, Start(c), events);
    ClaimedKeeps(c, Run(c, Start(c), events).value);
  }

  /** In any run, a CI advance or a master takes a slot for an issue that neither builds nor integrates. */
  lemma OneJobAnIssue(c: Config, events: seq<Event>, e: Event)
    requires Run(c, Start(c), events).Some? && Enabled(c, Run(c, Start(c), events).value, e)
    requires e.AdvanceCi? || e.DispatchMaster?
    ensures var s := Run(c, Start(c), events).value;
            var slot := Slot(s.pc.repo, if e.AdvanceCi? then s.pc.issue else e.issue);
            slot !in s.builds && slot !in s.merges && slot in Do(c, s, e).builds
  {
    RunKeeps(c, Start(c), events);
  }

  // ---------------------------------------------------------------- a target's own ceiling

  ghost predicate AllBelowCeilings(c: Config, s: State) {
    forall r: nat | r < |c.ceilings| :: BelowCeiling(c, s, r, 0)
  }

  lemma OtherReposUntouched(pool: map<Slot, nat>, slot: Slot, id: nat, repo: nat)
    requires repo != slot.repo
    ensures Of(pool[slot := id], repo) == Of(pool, repo)
  {
  }

  lemma FewerStayBelow(c: Config, s: State, t: State)
    requires AllBelowCeilings(c, s) && forall k | k in t.builds :: k in s.builds
    ensures AllBelowCeilings(c, t)
  {
    forall r: nat | r < |c.ceilings|
      ensures BelowCeiling(c, t, r, 0)
    {
      SubsetSize(Of(t.builds, r), Of(s.builds, r));
      assert BelowCeiling(c, s, r, 0);
    }
  }

  lemma ClaimedStaysBelow(c: Config, s: State)
    requires Inv(c, s) && AllBelowCeilings(c, s) && Enabled(c, s, Claimed)
    ensures AllBelowCeilings(c, Do(c, s, Claimed))
  {
    var t := Do(c, s, Claimed);
    ClaimedKeeps(c, s);
    forall r: nat | r < |c.ceilings| && r != s.pc.repo
      ensures BelowCeiling(c, t, r, 0)
    {
      OtherReposUntouched(s.builds, Slot(s.pc.repo, s.pc.issue), s.next, r);
      assert BelowCeiling(c, s, r, 0);
    }
  }

  lemma FillStepKeepsCeilings(c: Config, s: State, e: Event)
    requires Inv(c, s) && AllBelowCeilings(c, s) && Enabled(c, s, e) && !TakesSlot(e)
    ensures AllBelowCeilings(c, Do(c, s, e))
  {
    if e.Claimed? {
      ClaimedStaysBelow(c, s);
    } else {
      KeepsBuilds(c, s, e);
      FewerStayBelow(c, s, Do(c, s, e));
    }
  }

  lemma KeepsBuilds(c: Config, s: State, e: Event)
    requires Enabled(c, s, e) && !TakesSlot(e) && !e.Claimed?
    ensures forall k | k in Do(c, s, e).builds :: k in s.builds
  {
  }

  /** While slots are taken by fresh fill alone, every repo stays within its own ceiling. */
  lemma {:induction false} FillAloneRespectsCeilings(c: Config, s: State, events: seq<Event>)
    requires Inv(c, s) && AllBelowCeilings(c, s) && Run(c, s, events).Some?
    requires forall e | e in events :: !TakesSlot(e)
    ensures AllBelowCeilings(c, Run(c, s, events).value)
    decreases events
  {
    if events != [] {
      assert events[0] in events;
      StepKeeps(c, s, events[0]);
      FillStepKeepsCeilings(c, s, events[0]);
      FillAloneRespectsCeilings(c, Do(c, s, events[0]), events[1..]);
    }
  }

  lemma Head(c: Config, s: State, e: Event, more: seq<Event>)
    requires Enabled(c, s, e)
    ensures Run(c, s, [e] + more) == Run(c, Do(c, s, e), more)
  {
    assert ([e] + more)[1..] == more;
  }

  /** A quiet first tick of a single repo reaches its resume phase with every slot free. */
  lemma FirstResumePhase(c: Config, more: seq<Event>)
    requires |c.ceilings| == 1
    ensures Run(c, Start(c), [BootDone] + ([BeginTick] + ([SkipMerge] + ([EndSweep] + more))))
            == Run(c, Start(c).(pc := AtResume(0)), more)
  {
    var s := Start(c);
    Head(c, s.(pc := AtSweep(0)), EndSweep, more);
    Head(c, s.(pc := AtMerge(0)), SkipMerge, [EndSweep] + more);
    Head(c, s.(pc := Idle), BeginTick, [SkipMerge] + ([EndSweep] + more));
    Head(c, s, BootDone, [BeginTick] + ([SkipMerge] + ([EndSweep] + more)));
  }

  /** The repo already holds as many build slots as its own ceiling allows. */
  ghost predicate AtCeiling(c: Config, s: State, repo: nat) {
    repo < |c.ceilings| && c.ceilings[repo] == Some(|Of(s.builds, repo)|)
  }

  /** A slot taken for one repo moves that repo's count alone. */
  lemma TakenSlotCounts(c: Config, s: State, t: State, slot: Slot)
    requires slot !in s.builds && t.builds == s.builds[slot := s.next] && AllBelowCeilings(c, s)
    ensures AllBelowCeilings(c, t) <==> !AtCeiling(c, s, slot.repo)
  {
    OneMoreSlot(s.builds, slot, s.next);
    forall r: nat | r < |c.ceilings| && r != slot.repo
      ensures BelowCeiling(c, t, r, 0)
    {
      OtherReposUntouched(s.builds, slot, s.next, r);
      assert BelowCeiling(c, s, r, 0);
    }
    if slot.repo < |c.ceilings| {
      assert BelowCeiling(c, s, slot.repo, 0);
      assert BelowCeiling(c, t, slot.repo, 0) <==> !AtCeiling(c, s, slot.repo);
    }
  }

  lemma TakenSlot(c: Config, s: State, e: Event)
    requires Inv(c, s) && Enabled(c, s, e) && TakesSlot(e)
    ensures exists n :: var slot := Slot(s.pc.repo, n); slot !in s.builds && Do(c, s, e).builds == s.builds[slot := s.next]
  {
    var n := if e.Resume? || e.ResumeMaster? || e.DispatchMaster? then e.issue else s.pc.issue;
    assert Do(c, s, e).builds == s.builds[Slot(s.pc.repo, n) := s.next];
  }

  /**
   * The exact step that lifts a repo above its own ceiling: a recovery, a resume, a CI advance or
   * a master, none of which reads the ceiling, taken while the repo is already at it.
   */
  lemma CeilingBreaksExactly(c: Config, s: State, e: Event)
    requires Inv(c, s) && AllBelowCeilings(c, s) && Enabled(c, s, e)
    ensures AllBelowCeilings(c, Do(c, s, e)) <==> !(TakesSlot(e) && AtCeiling(c, s, s.pc.repo))
  {
    if TakesSlot(e) {
      TakenSlot(c, s, e);
      var n :| var slot := Slot(s.pc.repo, n);
               slot !in s.builds && Do(c, s, e).builds == s.builds[slot := s.next];
      TakenSlotCounts(c, s, Do(c, s, e), Slot(s.pc.repo, n));
    } else {
      FillStepKeepsCeilings(c, s, e);
    }
  }

  /** A resume takes its slot whenever the cap and the issue allow. */
  lemma ResumeTakes(c: Config, s: State, n: nat)
    requires s.pc.AtResume? && MayOccupy(c, s, Slot(s.pc.repo, n))
    ensures Enabled(c, s, Resume(n)) && Do(c, s, Resume(n)) == Occupy(s, Slot(s.pc.repo, n), false, s.pc)
  {
  }

  /** Two resumes in a row lift a repo above a ceiling that the first of them reached. */
  lemma ResumesTwice(c: Config, s: State, m: nat, n: nat)
    requires Inv(c, s) && AllBelowCeilings(c, s) && s.pc.AtResume? && MayOccupy(c, s, Slot(s.pc.repo, m))
    requires var t := Occupy(s, Slot(s.pc.repo, m), false, s.pc);
             AtCeiling(c, t, s.pc.repo) && MayOccupy(c, t, Slot(s.pc.repo, n)) && AllBelowCeilings(c, t)
    ensures var run := Run(c, s, [Resume(m)] + ([Resume(n)] + [])); run.Some? && !AllBelowCeilings(c, run.value)
  {
    var t := Occupy(s, Slot(s.pc.repo, m), false, s.pc);
    ResumeTakes(c, s, m);
    Head(c, s, Resume(m), [Resume(n)] + []);
    StepKeeps(c, s, Resume(m));
    ResumeTakes(c, t, n);
    Head(c, t, Resume(n), []);
    CeilingBreaksExactly(c, t, Resume(n));
  }

  lemma EmptyIsInv(c: Config, s: State)
    requires s == Start(c).(pc := AtResume(0))
    ensures Inv(c, s)
  {
  }

  lemma RoomForTwo(c: Config, s: State)
    requires c == Config(2, [Some(1)]) && s == Start(c).(pc := AtResume(0))
    ensures AllBelowCeilings(c, s) && MayOccupy(c, s, Slot(0, 1))
    ensures var t := Occupy(s, Slot(0, 1), false, s.pc);
            AtCeiling(c, t, 0) && MayOccupy(c, t, Slot(0, 2)) && AllBelowCeilings(c, t)
  {
    assert Of(s.builds, 0) == {};
    OneMoreSlot(s.builds, Slot(0, 1), s.next);
  }

  /** Such a step is reached: with two agents in all and one for the only repo, a quiet tick resumes two issues. */
  lemma CeilingIsExceeded(c: Config)
    requires c == Config(2, [Some(1)])
    ensures var run := Run(c, Start(c), [BootDone] + ([BeginTick] + ([SkipMerge] + ([EndSweep]
                           + ([Resume(1)] + ([Resume(2)] + []))))));
            run.Some? && !AllBelowCeilings(c, run.value)
  {
    var s := Start(c).(pc := AtResume(0));
    FirstResumePhase(c, [Resume(1)] + ([Resume(2)] + []));
    RoomForTwo(c, s);
    EmptyIsInv(c, s);
    ResumesTwice(c, s, 1, 2);
  }

  // ---------------------------------------------------------------- the shared budget

  /** The repo the driver is at: at boot, or in its tick. */
  function PcRepo(pc: Pc): Option<nat> {
    match pc
    case Boot(r) => Some(r)
    case BootAwait(r, _) => Some(r)
    case _ => Ticking(pc)
  }

  /** Every slot and the driver belong to a configured repo. */
  ghost predicate Placed(c: Config, s: State) {
    && (forall k | k in s.builds :: k.repo < |c.ceilings|)
    && (PcRepo(s.pc).Some? ==> PcRepo(s.pc).value < |c.ceilings|)
  }

  lemma MovePlaced(c: Config, s: State, e: Event)
    requires Placed(c, s) && Enabled(c, s, e) && Moves(e)
    ensures Placed(c, Do(c, s, e))
  {
  }

  lemma PlacedKept(c: Config, s: State, e: Event)
    requires Placed(c, s) && Enabled(c, s, e)
    ensures Placed(c, Do(c, s, e))
  {
    if Moves(e) {
      MovePlaced(c, s, e);
    }
  }

  lemma {:induction false} RunKeepsPlaced(c: Config, s: State, events: seq<Event>)
    requires Placed(c, s) && Run(c, s, events).Some?
    ensures Placed(c, Run(c, s, events).value)
    decreases events
  {
    if events != [] {
      PlacedKept(c, s, events[0]);
      RunKeepsPlaced(c, Do(c, s, events[0]), events[1..]);
    }
  }

  /** The sum over the repos' own pools that the shared budget takes. */
  function GlobalBuild(pool: map<Slot, nat>, repos: nat): nat {
    if repos == 0 then 0 else GlobalBuild(pool, repos - 1) + |Of(pool, repos - 1)|
  }

  lemma {:induction false} SumOfPools(pool: map<Slot, nat>, repos: nat)
    ensures GlobalBuild(pool, repos) == |set k | k in pool && k.repo < repos|
  {
    var below := set k | k in pool && k.repo < repos;
    if repos == 0 {
      assert below == {};
    } else {
      SumOfPools(pool, repos - 1);
      assert below == (set k | k in pool && k.repo < repos - 1) + Of(pool, repos - 1);
    }
  }

  /** In every reachable state the budget's sum over the repos is at most the cap. */
  lemma BudgetIsNeverOverspent(c: Config, events: seq<Event>)
    requires Run(c, Start(c), events).Some?
    ensures GlobalBuild(Run(c, Start(c), events).value.builds, |c.ceilings|) <= c.cap
  {
    RunKeeps(c, Start(c), events);
    RunKeepsPlaced(c, Start(c), events);
    PlacedSum(c, Run(c, Start(c), events).value);
  }

  lemma PlacedSum(c: Config, s: State)
    requires Placed(c, s)
    ensures GlobalBuild(s.builds, |c.ceilings|) == |s.builds|
  {
    SumOfPools(s.builds, |c.ceilings|);
    assert (set k | k in s.builds && k.repo < |c.ceilings|) == s.builds.Keys;
  }
}
