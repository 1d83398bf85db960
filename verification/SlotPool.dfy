/** The reconciler's own slot bookkeeping: the pools it updates, the shared budget, the master lease. */
module SlotPool {
  import opened Wrappers
  import Adm = Admission
  import opened Labels
  import opened Seqs
  import opened Sorting
  import P = SlotProtocol
  import opened SlotImage

  // ---------------------------------------------------------------- the shared budget

  function Pools(all: seq<Reconciler>): (r: seq<set<nat>>)
    reads all
    ensures |r| == |all| && forall i | 0 <= i < |all| :: r[i] == all[i].inFlight
  {
    seq(|all|, i requires 0 <= i < |all| reads all => all[i].inFlight)
  }

  function Leases(all: seq<Reconciler>): (r: seq<set<nat>>)
    reads all
    ensures |r| == |all| && forall i | 0 <= i < |all| :: r[i] == all[i].mergeInFlight
  {
    seq(|all|, i requires 0 <= i < |all| reads all => all[i].mergeInFlight)
  }

  /** The budget sums every repo's build pool. */
  function GlobalBuild(all: seq<Reconciler>): nat
    reads all
  {
    Sum(Sizes(Pools(all)))
  }

  /** Everything the reconcilers keep. */
  function BooksOf(all: seq<Reconciler>, lease: MasterLease): Books
    reads all, lease
  {
    Books(Pools(all), Leases(all), lease.holder)
  }

  lemma ResizedPool(pools: seq<set<nat>>, i: nat, pool: set<nat>)
    requires i < |pools|
    ensures Sum(Sizes(pools[i := pool])) == Sum(Sizes(pools)) - |pools[i]| + |pool|
  {
    assert Sizes(pools[i := pool]) == Sizes(pools)[i := |pool|];
    SumUpdate(Sizes(pools), i, |pool|);
  }

  /** The one process-wide master lease, keyed by its holder. */
  class MasterLease {
    var holder: Option<P.Slot>

    constructor ()
      ensures holder == None
    {
      holder := None;
    }

    method Acquire(key: P.Slot) returns (ok: bool)
      modifies this
      ensures ok == old(holder).None?
      ensures holder == if ok then Some(key) else old(holder)
    {
      ok := holder.None?;
      if ok {
        holder := Some(key);
      }
    }

    /** A handle releases the lease only while its own key holds it, and only once. */
    method Release(key: P.Slot, released: bool) returns (nowReleased: bool)
      modifies this
      ensures holder == if !released && old(holder) == Some(key) then None else old(holder)
      ensures nowReleased == (released || old(holder) == Some(key))
    {
      if released || holder != Some(key) {
        return released;
      }
      holder := None;
      nowReleased := true;
    }
  }

  /** An answered paused run; `master` when a master asked the question. */
  datatype Item = Item(issue: nat, master: bool)

  /** What is running that was not: a worker's item, or the one master's that took the free lease. */
  ghost predicate Justified(repo: nat, items: seq<Item>, was: set<nat>, held: Option<P.Slot>, running: set<nat>, now: Option<P.Slot>) {
    && was <= running
    && (forall n | n in running && n !in was ::
          Item(n, false) in items || (Item(n, true) in items && held.None? && now == Some(P.Slot(repo, n))))
    && (now != held ==> held.None? && now.Some? && now.value.repo == repo && now.value.issue in running - was)
  }

  lemma OneMoreJustified(repo: nat, items: seq<Item>, was: set<nat>, held: Option<P.Slot>, running: set<nat>, now: Option<P.Slot>, item: Item)
    requires Justified(repo, items, was, held, running, now)
    requires item in items && item.issue !in running && (item.master ==> now.None?)
    ensures Justified(repo, items, was, held, running + {item.issue}, if item.master then Some(P.Slot(repo, item.issue)) else now)
  {
    assert item == Item(item.issue, item.master);
  }

  class Reconciler {
    const repo: nat
    var inFlight: set<nat>
    var mergeInFlight: set<nat>

    constructor (repo: nat)
      ensures inFlight == {} && mergeInFlight == {} && this.repo == repo
    {
      this.repo := repo;
      inFlight, mergeInFlight := {}, {};
    }

    /** This reconciler's place in the drive order of those the budget sums. */
    ghost predicate In(all: seq<Reconciler>) {
      && repo < |all| && all[repo] == this
      && forall i, j | 0 <= i < j < |all| :: all[i] != all[j]
    }

    /** When only this reconciler's build pool has changed, only its entry has. */
    lemma PoolsMoved(all: seq<Reconciler>, pools: seq<set<nat>>, leases: seq<set<nat>>)
      requires In(all) && |pools| == |leases| == |all|
      requires forall i | 0 <= i < |all| :: leases[i] == all[i].mergeInFlight && (i != repo ==> pools[i] == all[i].inFlight)
      ensures Pools(all) == pools[repo := inFlight] && Leases(all) == leases
    {
    }

    /** Hold a build slot: the one place the pool grows, and the budget with it. */
    method OccupySlot(n: nat, ghost all: seq<Reconciler>)
      requires In(all) && n !in inFlight
      modifies this`inFlight
      ensures inFlight == old(inFlight) + {n}
      ensures Pools(all) == old(Pools(all))[repo := inFlight] && Leases(all) == old(Leases(all))
      ensures GlobalBuild(all) == old(GlobalBuild(all)) + 1
    {
      ghost var before, leases := Pools(all), Leases(all);
      inFlight := inFlight + {n};
      PoolsMoved(all, before, leases);
      ResizedPool(before, repo, inFlight);
    }

    /** A settled promise frees its slot, here and in the budget: the protocol's own settling. */
    method Settled(n: nat, ghost all: seq<Reconciler>, ghost lease: MasterLease)
      requires In(all) && n in inFlight
      modifies this`inFlight
      ensures inFlight == old(inFlight) - {n}
      ensures GlobalBuild(all) == old(GlobalBuild(all)) - 1
      ensures Settling(old(BooksOf(all, lease)), P.Slot(repo, n), BooksOf(all, lease))
    {
      ghost var before := BooksOf(all, lease);
      inFlight := inFlight - {n};
      PoolsMoved(all, before.pools, before.merges);
      ResizedPool(before.pools, repo, inFlight);
      FreeSettles(before, repo, n);
    }

    /** The most launches that fit under both the global cap and this target's ceiling. */
    method AvailableSlots(all: seq<Reconciler>, cap: nat, ceiling: Option<nat>) returns (slots: nat)
      ensures slots > 0 ==> GlobalBuild(all) + slots <= cap && (ceiling.Some? ==> |inFlight| + slots <= ceiling.value)
      ensures GlobalBuild(all) + slots >= cap || (ceiling.Some? && |inFlight| + slots >= ceiling.value)
    {
      var global := P.Max0(cap - GlobalBuild(all));
      if ceiling.None? {
        return global;
      }
      slots := P.Max0(P.Min(global, ceiling.value - |inFlight|));
    }

    /** Resume one run under a build slot; a master's answer also needs the lease. */
    method LaunchResume(item: Item, ghost all: seq<Reconciler>, lease: MasterLease) returns (ok: bool)
      requires In(all) && item.issue !in inFlight
      modifies this`inFlight, lease
      ensures ok <==> !(item.master && old(lease.holder).Some?)
      ensures inFlight == old(inFlight) + if ok then {item.issue} else {}
      ensures GlobalBuild(all) == old(GlobalBuild(all)) + if ok then 1 else 0
      ensures lease.holder == if ok && item.master then Some(P.Slot(repo, item.issue)) else old(lease.holder)
      ensures BooksOf(all, lease) == if ok then old(BooksOf(all, lease)).Take(repo, item.issue, item.master) else old(BooksOf(all, lease))
    {
      ghost var before := BooksOf(all, lease);
      ok := true;
      if item.master {
        ok := lease.Acquire(P.Slot(repo, item.issue));
      }
      assert Pools(all) == before.pools && Leases(all) == before.merges;
      if ok {
        OccupySlot(item.issue, all);
      }
    }

    /** What the resume phase has done so far: a justified run of resumes within the cap, all of it in the budget. */
    ghost predicate Progressed(items: seq<Item>, was: set<nat>, first: Books, all: seq<Reconciler>, cap: nat, lease: MasterLease)
      reads this, all, lease
    {
      && Resuming(first, repo, cap, BooksOf(all, lease))
      && Justified(repo, items, was, first.holder, inFlight, lease.holder)
      && GlobalBuild(all) - first.Build() == |inFlight| - |was|
      && (inFlight != was ==> GlobalBuild(all) <= cap)
    }

    /** One item while the budget has room: it starts, unless it runs already or meets a held lease. */
    method ResumeOne(item: Item, ghost items: seq<Item>, ghost all: seq<Reconciler>, ghost cap: nat, lease: MasterLease,
                     ghost was: set<nat>, ghost first: Books)
      requires In(all) && item in items && GlobalBuild(all) < cap && Progressed(items, was, first, all, cap, lease)
      modifies this`inFlight, lease
      ensures Progressed(items, was, first, all, cap, lease)
      ensures old(inFlight) <= inFlight && (old(lease.holder).Some? ==> lease.holder.Some?)
      ensures item.issue in inFlight || (item.master && lease.holder.Some?)
    {
      if item.issue !in inFlight && !(item.master && lease.holder.Some?) {
        OneMoreResumed(first, BooksOf(all, lease), repo, cap, item.master, item.issue);
        OneMoreJustified(repo, items, was, first.holder, inFlight, lease.holder, item);
        var ok := LaunchResume(item, all, lease);
      }
    }

    /** The loop over the items: each one starts, or runs already, or meets a held lease, until the budget is full. */
    method ResumeEach(items: seq<Item>, all: seq<Reconciler>, cap: nat, lease: MasterLease, ghost was: set<nat>, ghost first: Books)
      requires In(all) && Progressed(items, was, first, all, cap, lease)
      modifies this`inFlight, lease
      ensures Progressed(items, was, first, all, cap, lease)
      ensures forall item | item in items ::
                item.issue in inFlight || GlobalBuild(all) >= cap || (item.master && lease.holder.Some?)
    {
      for i := 0 to |items|
        invariant Progressed(items, was, first, all, cap, lease)
        invariant forall k | 0 <= k < i :: items[k].issue in inFlight || (items[k].master && lease.holder.Some?)
      {
        if !(GlobalBuild(all) < cap) {
          return;
        }
        ResumeOne(items[i], items, all, cap, lease, was, first);
      }
    }

    /**
     * Resume answered runs in order, up to the cap. Nothing that could start is left waiting: an
     * item not running afterwards met a full budget, or a master lease already held. The whole
     * phase is a run of the protocol's resumes.
     */
    method ResumeAnswered(items: seq<Item>, all: seq<Reconciler>, cap: nat, lease: MasterLease)
      requires In(all)
      modifies this`inFlight, lease
      ensures Justified(repo, items, old(inFlight), old(lease.holder), inFlight, lease.holder)
      ensures GlobalBuild(all) - old(GlobalBuild(all)) == |inFlight| - |old(inFlight)|
      ensures inFlight != old(inFlight) ==> GlobalBuild(all) <= cap
      ensures forall item | item in items ::
                item.issue in inFlight || GlobalBuild(all) >= cap || (item.master && lease.holder.Some?)
      ensures Resuming(old(BooksOf(all, lease)), repo, cap, BooksOf(all, lease))
    {
      ghost var was, first := inFlight, BooksOf(all, lease);
      NoneResumed(first, repo, cap);
      ResumeEach(items, all, cap, lease, was, first);
    }

    /** Take a slot for an issue this driver held over an await. */
    method Wake(n: nat, ghost pc: P.Pc, ghost e: P.Event, ghost all: seq<Reconciler>, ghost cap: nat, ghost lease: MasterLease)
      requires In(all) && n !in inFlight && Wakes(pc, e, n) && pc.repo == repo
      requires (e.BootRecover? || e.Recover?) ==> GlobalBuild(all) < cap
      modifies this`inFlight
      ensures inFlight == old(inFlight) + {n} && GlobalBuild(all) == old(GlobalBuild(all)) + 1
      ensures Step(old(BooksOf(all, lease)), pc, cap, e, BooksOf(all, lease))
    {
      WakeSteps(BooksOf(all, lease), pc, e, n, cap);
      OccupySlot(n, all);
    }

    /** Re-drive an orphaned run whose issue and pull request are alive, at boot or in a sweep, if a slot is free now. */
    method RecoverOrphan(n: nat, boot: bool, all: seq<Reconciler>, cap: nat, ghost lease: MasterLease) returns (launched: bool)
      requires In(all) && n !in inFlight
      modifies this`inFlight
      ensures launched <==> old(GlobalBuild(all)) < cap
      ensures inFlight == old(inFlight) + if launched then {n} else {}
      ensures launched ==>
                if boot then Step(old(BooksOf(all, lease)), P.BootAwait(repo, n), cap, P.BootRecover, BooksOf(all, lease))
                else Step(old(BooksOf(all, lease)), P.SweepAwait(repo, n), cap, P.Recover, BooksOf(all, lease))
    {
      launched := GlobalBuild(all) < cap;
      if launched {
        Wake(n, if boot then P.BootAwait(repo, n) else P.SweepAwait(repo, n),
             if boot then P.BootRecover else P.Recover, all, cap, lease);
      }
    }

    /** Advance a parked run whose checks have a verdict; the slot was seen free before they were read. */
    method AdvanceParked(n: nat, ghost all: seq<Reconciler>, ghost cap: nat, ghost lease: MasterLease)
      requires In(all) && n !in inFlight
      modifies this`inFlight
      ensures inFlight == old(inFlight) + {n}
      ensures Step(old(BooksOf(all, lease)), P.CiAwait(repo, n), cap, P.AdvanceCi, BooksOf(all, lease))
    {
      Wake(n, P.CiAwait(repo, n), P.AdvanceCi, all, cap, lease);
    }

    /** Launch a picked issue once its claim has landed, or leave it to the next tick when the claim failed. */
    method LaunchClaimed(n: nat, claimed: bool, ghost rest: seq<nat>, ghost all: seq<Reconciler>, ghost cap: nat, ghost lease: MasterLease)
      requires In(all) && n !in inFlight
      modifies this`inFlight
      ensures inFlight == old(inFlight) + if claimed then {n} else {}
      ensures Step(old(BooksOf(all, lease)), P.ClaimAwait(repo, n, rest), cap,
                   if claimed then P.Claimed else P.ClaimFailed, BooksOf(all, lease))
    {
      if claimed {
        Wake(n, P.ClaimAwait(repo, n, rest), P.Claimed, all, cap, lease);
      } else {
        FailedClaimSteps(BooksOf(all, lease), repo, n, rest, cap);
      }
    }

    /** Start a master under the free lease and a build slot. */
    method Start(n: nat, ghost all: seq<Reconciler>, lease: MasterLease)
      requires In(all) && n !in inFlight && lease.holder.None?
      modifies this`inFlight, lease
      ensures inFlight == old(inFlight) + {n} && lease.holder == Some(P.Slot(repo, n))
      ensures GlobalBuild(all) == old(GlobalBuild(all)) + 1
      ensures BooksOf(all, lease) == old(BooksOf(all, lease)).Take(repo, n, true)
    {
      var ok := LaunchResume(Item(n, true), all, lease);
    }

    /** Take the first queued escalation that is not busy, if the lease and a slot are free. */
    method ServiceMasterQueue(queued: seq<nat>, routable: bool, all: seq<Reconciler>, cap: nat, lease: MasterLease)
      returns (started: Option<nat>)
      requires In(all)
      modifies this`inFlight, lease
      ensures started.Some? <==>
                routable && old(lease.holder).None? && old(GlobalBuild(all)) < cap
                && exists n | n in queued :: n !in old(inFlight) && n !in mergeInFlight
      ensures started.Some? ==>
                && inFlight == old(inFlight) + {started.value} && lease.holder == Some(P.Slot(repo, started.value))
                && started.value !in old(inFlight) && started.value !in mergeInFlight
                && exists i | 0 <= i < |queued| ::
                     queued[i] == started.value && forall k | 0 <= k < i :: queued[k] in old(inFlight) || queued[k] in mergeInFlight
      ensures started.None? ==> inFlight == old(inFlight) && lease.holder == old(lease.holder)
      ensures GlobalBuild(all) == old(GlobalBuild(all)) + if started.Some? then 1 else 0
      ensures started.Some? ==>
                Step(old(BooksOf(all, lease)), P.AtMaster(repo), cap, P.DispatchMaster(started.value), BooksOf(all, lease))
    {
      started := None;
      if !routable || lease.holder.Some? || !(GlobalBuild(all) < cap) {
        return;
      }
      for i := 0 to |queued|
        invariant forall k | 0 <= k < i :: queued[k] in inFlight || queued[k] in mergeInFlight
      {
        if queued[i] !in inFlight && queued[i] !in mergeInFlight {
          DispatchSteps(BooksOf(all, lease), repo, queued[i], cap);
          Start(queued[i], all, lease);
          return Some(queued[i]);
        }
      }
    }

    /** Lease the oldest queued integration whose run has left its build slot, one at a time. */
    method ServiceMergeWorker(queue: seq<nat>, ghost all: seq<Reconciler>, ghost lease: MasterLease) returns (leased: Option<nat>)
      requires In(all)
      modifies this`mergeInFlight
      ensures leased.Some? <==> old(mergeInFlight) == {} && exists n | n in queue :: n !in inFlight
      ensures leased.Some? ==>
                && mergeInFlight == {leased.value} && leased.value !in inFlight
                && exists i | 0 <= i < |queue| :: queue[i] == leased.value && forall k | 0 <= k < i :: queue[k] in inFlight
      ensures leased.None? ==> mergeInFlight == old(mergeInFlight)
      ensures forall cap | leased.Some? ::
                Step(old(BooksOf(all, lease)), P.AtMerge(repo), cap, P.LeaseMerge(leased.value), BooksOf(all, lease))
    {
      leased := None;
      if |mergeInFlight| > 0 {
        assert mergeInFlight != {};
        return;
      }
      for i := 0 to |queue|
        invariant mergeInFlight == {} && forall k | 0 <= k < i :: queue[k] in inFlight
      {
        assert queue[i] in queue;
        if queue[i] !in mergeInFlight && queue[i] !in inFlight {
          ghost var before := BooksOf(all, lease);
          mergeInFlight := mergeInFlight + {queue[i]};
          assert BooksOf(all, lease) == before.Merge(repo, queue[i]);
          forall cap
            ensures Step(before, P.AtMerge(repo), cap, P.LeaseMerge(queue[i]), BooksOf(all, lease))
          {
            MergeSteps(before, repo, queue[i], cap);
          }
          return Some(queue[i]);
        }
      }
    }
  }

  // ---------------------------------------------------------------- the launch plan meets the protocol

  function Numbers(picked: seq<Adm.Picked>): seq<nat> { Map(picked, (p: Adm.Picked) => p.issue.number) }

  /**
   * The plan of an admission pass that polled each issue once is a legal pick of the slot
   * protocol: distinct issues, each seen out of flight, no more than the slots counted for it.
   */
  lemma PlanIsAPick(c: P.Config, s: P.State, issues: seq<Issue>, world: Adm.World, f: nat -> bool)
    requires s.pc.Admitting? && Adm.DistinctNumbers(issues) && (forall i, j | 0 <= i < j < |issues| :: issues[i] != issues[j])
    requires world.openSlots == s.pc.slots
    requires forall issue | issue in issues && !world.inFlight(issue.number) :: issue.number in s.pc.free
    ensures P.Enabled(c, s, P.Pick(Numbers(Adm.PlanOf(issues, world, f).picked)))
  {
    var plan := Adm.PlanOf(issues, world, f);
    var q := Numbers(plan.picked);
    Adm.PickedIsTheFront(issues, world, f);
    forall i | 0 <= i < |q|
      ensures q[i] in s.pc.free
    {
      assert plan.picked[i] == plan.eligible[i];
      Adm.EligibleExactly(issues, world, f, plan.picked[i].issue, plan.picked[i].mode);
    }
    PickedOnce(issues, world, f);
  }

  /** No issue is eligible twice. */
  lemma EligibleOnce(issues: seq<Issue>, world: Adm.World, f: nat -> bool)
    requires forall i, j | 0 <= i < j < |issues| :: issues[i] != issues[j]
    ensures var eligible := Map(Adm.PlanOf(issues, world, f).eligible, (p: Adm.Picked) => p.issue);
            forall i, j | 0 <= i < j < |eligible| :: eligible[i] != eligible[j]
  {
    var eligible := Map(Adm.PlanOf(issues, world, f).eligible, (p: Adm.Picked) => p.issue);
    Adm.PlanConserves(issues, world, f);
    forall i, j | 0 <= i < j < |eligible|
      ensures eligible[i] != eligible[j]
    {
      OncePresent(issues, eligible[i]);
      if eligible[i] == eligible[j] {
        TwicePresent(eligible, i, j);
      }
    }
  }

  lemma FrontNumbersDistinct(picked: seq<Adm.Picked>, eligible: seq<Adm.Picked>, issues: seq<Issue>)
    requires picked <= eligible && Adm.DistinctNumbers(issues)
    requires forall i, j | 0 <= i < j < |eligible| :: eligible[i].issue != eligible[j].issue
    requires forall p | p in eligible :: p.issue in issues
    ensures P.Distinct(Numbers(picked))
  {
    forall i, j | 0 <= i < j < |picked|
      ensures picked[i].issue.number != picked[j].issue.number
    {
      assert picked[i] == eligible[i] && picked[j] == eligible[j];
    }
  }

  lemma PickedOnce(issues: seq<Issue>, world: Adm.World, f: nat -> bool)
    requires Adm.DistinctNumbers(issues) && forall i, j | 0 <= i < j < |issues| :: issues[i] != issues[j]
    ensures P.Distinct(Numbers(Adm.PlanOf(issues, world, f).picked))
  {
    var eligible := Adm.PlanOf(issues, world, f).eligible;
    Adm.PickedIsTheFront(issues, world, f);
    EligibleOnce(issues, world, f);
    assert forall i | 0 <= i < |eligible| :: Map(eligible, (p: Adm.Picked) => p.issue)[i] == eligible[i].issue;
    forall p | p in eligible
      ensures p.issue in issues
    {
      Adm.EligibleExactly(issues, world, f, p.issue, p.mode);
      assert p == Adm.Picked(p.issue, p.mode);
    }
    FrontNumbersDistinct(Adm.PlanOf(issues, world, f).picked, eligible, issues);
  }

  lemma TwicePresent(s: seq<Issue>, i: nat, j: nat)
    requires i < j < |s| && s[i] == s[j]
    ensures multiset(s)[s[i]] >= 2
  {
    assert s == s[..i] + [s[i]] + s[i + 1..j] + [s[j]] + s[j + 1..];
  }

  lemma {:induction false} OncePresent(s: seq<Issue>, x: Issue)
    requires forall i, j | 0 <= i < j < |s| :: s[i] != s[j]
    ensures multiset(s)[x] <= 1
  {
    if s != [] {
      OncePresent(s[1..], x);
      assert s == [s[0]] + s[1..];
    }
  }
}
