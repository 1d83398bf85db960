/** The reconcilers' own sets and the slot protocol's state, seen as each other's image. */
module SlotImage {
  import opened Wrappers
  import P = SlotProtocol

  function Sum(s: seq<nat>): nat {
    if s == [] then 0 else s[0] + Sum(s[1..])
  }

  lemma {:induction false} SumUpdate(s: seq<nat>, i: nat, v: nat)
    requires i < |s|
    ensures Sum(s[i := v]) == Sum(s) - s[i] + v
  {
    if i == 0 {
      assert s[0 := v][1..] == s[1..];
    } else {
      assert s[i := v][1..] == s[1..][i - 1 := v];
      SumUpdate(s[1..], i - 1, v);
    }
  }

  lemma {:induction false} SumSnoc(s: seq<nat>, v: nat)
    ensures Sum(s + [v]) == Sum(s) + v
  {
    if s != [] {
      assert (s + [v])[1..] == s[1..] + [v];
      SumSnoc(s[1..], v);
    } else {
      assert s + [v] == [v] && [v][1..] == [];
    }
  }

  /** One pool per repo, in drive order, holds exactly the protocol's slots of that repo. */
  ghost predicate Holds(pools: seq<set<nat>>, taken: map<P.Slot, nat>) {
    && (forall r: nat, n: nat | r < |pools| :: n in pools[r] <==> P.Slot(r, n) in taken)
    && (forall k | k in taken :: k.repo < |pools|)
  }

  /** What the reconcilers keep among them: each repo's build pool and merge lease, and the master lease's holder. */
  datatype Books = Books(pools: seq<set<nat>>, merges: seq<set<nat>>, holder: Option<P.Slot>) {
    function Build(): nat { Sum(Sizes(pools)) }

    function Take(repo: nat, n: nat, master: bool): Books
      requires repo < |pools|
    {
      Books(pools[repo := pools[repo] + {n}], merges, if master then Some(P.Slot(repo, n)) else holder)
    }

    function Free(repo: nat, n: nat): Books
      requires repo < |pools|
    {
      Books(pools[repo := pools[repo] - {n}], merges, holder)
    }

    function Merge(repo: nat, n: nat): Books
      requires repo < |merges|
    {
      Books(pools, merges[repo := merges[repo] + {n}], holder)
    }
  }

  /** The books are those of the protocol's state. */
  ghost predicate Image(b: Books, s: P.State) {
    && |b.pools| == |b.merges| && Holds(b.pools, s.builds) && Holds(b.merges, s.merges)
    && match s.lease
       case None => b.holder.None?
       case Some(id) => id in s.live && b.holder == Some(s.live[id].slot)
  }

  function Sizes(pools: seq<set<nat>>): (r: seq<nat>)
    ensures |r| == |pools| && forall i | 0 <= i < |r| :: r[i] == |pools[i]|
  {
    seq(|pools|, i requires 0 <= i < |pools| => |pools[i]|)
  }

  function SlotsOf(repo: nat, pool: set<nat>): set<P.Slot> { set n | n in pool :: P.Slot(repo, n) }

  lemma {:induction false} SameSize(repo: nat, pool: set<nat>)
    ensures |SlotsOf(repo, pool)| == |pool|
  {
    if pool != {} {
      var n :| n in pool;
      SameSize(repo, pool - {n});
      assert SlotsOf(repo, pool) == SlotsOf(repo, pool - {n}) + {P.Slot(repo, n)};
    }
  }

  lemma SlotsAgree(pools: seq<set<nat>>, taken: map<P.Slot, nat>, repo: nat)
    requires Holds(pools, taken) && repo < |pools|
    ensures P.Of(taken, repo) == SlotsOf(repo, pools[repo])
  {
    forall k | k in P.Of(taken, repo)
      ensures k in SlotsOf(repo, pools[repo])
    {
      assert k == P.Slot(repo, k.issue);
    }
  }

  lemma {:induction false} SizesSum(pools: seq<set<nat>>, taken: map<P.Slot, nat>, repos: nat)
    requires Holds(pools, taken) && repos <= |pools|
    ensures Sum(Sizes(pools)[..repos]) == P.GlobalBuild(taken, repos)
  {
    if repos == 0 {
      assert Sizes(pools)[..0] == [];
    } else {
      SizesSum(pools, taken, repos - 1);
      SameSize(repos - 1, pools[repos - 1]);
      SlotsAgree(pools, taken, repos - 1);
      SumSnoc(Sizes(pools)[..repos - 1], |pools[repos - 1]|);
      assert Sizes(pools)[..repos] == Sizes(pools)[..repos - 1] + [|pools[repos - 1]|];
    }
  }

  /** The budget the reconcilers sum is the number of slots the protocol holds. */
  lemma BudgetAgrees(pools: seq<set<nat>>, taken: map<P.Slot, nat>)
    requires Holds(pools, taken)
    ensures Sum(Sizes(pools)) == |taken|
  {
    SizesSum(pools, taken, |pools|);
    P.SumOfPools(taken, |pools|);
    assert Sizes(pools)[..|pools|] == Sizes(pools);
    assert (set k | k in taken && k.repo < |pools|) == taken.Keys;
  }

  /** The reconcilers' guards are the protocol's. */
  lemma GuardsAgree(c: P.Config, b: Books, s: P.State, repo: nat, n: nat)
    requires Image(b, s) && repo < |b.pools|
    ensures P.MayOccupy(c, s, P.Slot(repo, n)) <==> b.Build() < c.cap && n !in b.pools[repo]
    ensures P.MayLease(s, P.Slot(repo, n)) <==> b.merges[repo] == {} && n !in b.pools[repo]
    ensures s.lease.None? <==> b.holder.None?
    ensures P.Slot(repo, n) in s.merges <==> n in b.merges[repo]
  {
    BudgetAgrees(b.pools, s.builds);
    if m :| m in b.merges[repo] {
      assert P.Slot(repo, m) in P.Of(s.merges, repo);
    } else {
      assert P.Of(s.merges, repo) == {};
    }
  }

  lemma TakeHolds(pools: seq<set<nat>>, taken: map<P.Slot, nat>, repo: nat, n: nat, id: nat)
    requires Holds(pools, taken) && repo < |pools|
    ensures Holds(pools[repo := pools[repo] + {n}], taken[P.Slot(repo, n) := id])
  {
  }

  lemma FreeHolds(pools: seq<set<nat>>, taken: map<P.Slot, nat>, repo: nat, n: nat)
    requires Holds(pools, taken) && repo < |pools|
    ensures Holds(pools[repo := pools[repo] - {n}], taken - {P.Slot(repo, n)})
  {
  }

  /** Taking a build slot in the books is taking it in the protocol. */
  lemma OccupyImage(b: Books, s: P.State, repo: nat, n: nat, master: bool, pc: P.Pc)
    requires Image(b, s) && repo < |b.pools| && P.Numbered(s)
    ensures Image(b.Take(repo, n, master), P.Occupy(s, P.Slot(repo, n), master, pc))
  {
    TakeHolds(b.pools, s.builds, repo, n, s.next);
  }

  lemma LeaseImage(b: Books, s: P.State, repo: nat, n: nat, pc: P.Pc)
    requires Image(b, s) && repo < |b.merges| && P.Numbered(s)
    ensures Image(b.Merge(repo, n), P.Lease(s, P.Slot(repo, n), pc))
  {
    TakeHolds(b.merges, s.merges, repo, n, s.next);
  }

  // ---------------------------------------------------------------- single steps

  /** From every state the old books are of, the protocol may take this step, and the new books are of the state it leaves. */
  ghost predicate Step(b: Books, pc: P.Pc, cap: nat, e: P.Event, b': Books) {
    forall c, s | Image(b, s) && P.Inv(c, s) && s.pc == pc && c.cap == cap ::
      P.Enabled(c, s, e) && Image(b', P.Do(c, s, e))
  }

  lemma DispatchTakes(c: P.Config, s: P.State, n: nat)
    requires s.pc.AtMaster? && s.lease.None? && P.MayOccupy(c, s, P.Slot(s.pc.repo, n)) && P.Slot(s.pc.repo, n) !in s.merges
    ensures P.Enabled(c, s, P.DispatchMaster(n))
    ensures P.Do(c, s, P.DispatchMaster(n)) == P.Occupy(s, P.Slot(s.pc.repo, n), true, P.AtAdmit(s.pc.repo))
  {
  }

  /** The master dispatch the reconcilers' guards allow is a step of the protocol. */
  lemma DispatchSteps(b: Books, repo: nat, n: nat, cap: nat)
    requires repo < |b.pools| && b.holder.None? && b.Build() < cap
    requires n !in b.pools[repo] && (repo < |b.merges| ==> n !in b.merges[repo])
    ensures Step(b, P.AtMaster(repo), cap, P.DispatchMaster(n), b.Take(repo, n, true))
  {
    forall c, s | Image(b, s) && P.Inv(c, s) && s.pc == P.AtMaster(repo) && c.cap == cap
      ensures P.Enabled(c, s, P.DispatchMaster(n)) && Image(b.Take(repo, n, true), P.Do(c, s, P.DispatchMaster(n)))
    {
      GuardsAgree(c, b, s, repo, n);
      DispatchTakes(c, s, n);
      OccupyImage(b, s, repo, n, true, P.AtAdmit(repo));
    }
  }

  /** What a driver that wakes from an await holding `n` takes, whichever await it was. */
  predicate Wakes(pc: P.Pc, e: P.Event, n: nat) {
    || (e.BootRecover? && pc.BootAwait? && pc.issue == n)
    || (e.Recover? && pc.SweepAwait? && pc.issue == n)
    || (e.AdvanceCi? && pc.CiAwait? && pc.issue == n)
    || (e.Claimed? && pc.ClaimAwait? && pc.issue == n)
  }

  lemma WakeTakes(c: P.Config, s: P.State, e: P.Event, n: nat)
    requires Wakes(s.pc, e, n) && ((e.BootRecover? || e.Recover?) ==> P.HasCapacity(c, s))
    ensures P.Enabled(c, s, e)
    ensures P.Do(c, s, e) == P.Occupy(s, P.Slot(s.pc.repo, n), false, P.Do(c, s, e).pc)
  {
  }

  /**
   * The slot taken after an await is a step of the protocol: a recovery checks the budget again, a CI
   * advance and a claimed launch rely on what was reserved before it.
   */
  lemma WakeSteps(b: Books, pc: P.Pc, e: P.Event, n: nat, cap: nat)
    requires Wakes(pc, e, n) && pc.repo < |b.pools| && ((e.BootRecover? || e.Recover?) ==> b.Build() < cap)
    ensures Step(b, pc, cap, e, b.Take(pc.repo, n, false))
  {
    forall c, s | Image(b, s) && P.Inv(c, s) && s.pc == pc && c.cap == cap
      ensures P.Enabled(c, s, e) && Image(b.Take(pc.repo, n, false), P.Do(c, s, e))
    {
      BudgetAgrees(b.pools, s.builds);
      WakeTakes(c, s, e, n);
      OccupyImage(b, s, pc.repo, n, false, P.Do(c, s, e).pc);
    }
  }

  lemma FailedClaimTakes(c: P.Config, s: P.State)
    requires s.pc.ClaimAwait?
    ensures P.Enabled(c, s, P.ClaimFailed) && P.Do(c, s, P.ClaimFailed) == s.(pc := P.Launching(s.pc.repo, s.pc.picked))
  {
  }

  /** A failed claim takes nothing. */
  lemma FailedClaimSteps(b: Books, repo: nat, n: nat, rest: seq<nat>, cap: nat)
    ensures Step(b, P.ClaimAwait(repo, n, rest), cap, P.ClaimFailed, b)
  {
    forall c, s | Image(b, s) && P.Inv(c, s) && s.pc == P.ClaimAwait(repo, n, rest) && c.cap == cap
      ensures P.Enabled(c, s, P.ClaimFailed) && Image(b, P.Do(c, s, P.ClaimFailed))
    {
      FailedClaimTakes(c, s);
    }
  }

  lemma LeaseTakes(c: P.Config, s: P.State, n: nat)
    requires s.pc.AtMerge? && P.MayLease(s, P.Slot(s.pc.repo, n))
    ensures P.Enabled(c, s, P.LeaseMerge(n))
    ensures P.Do(c, s, P.LeaseMerge(n)) == P.Lease(s, P.Slot(s.pc.repo, n), P.AtSweep(s.pc.repo))
  {
  }

  /** The integration the reconcilers' guard allows is a step of the protocol. */
  lemma MergeSteps(b: Books, repo: nat, n: nat, cap: nat)
    requires repo < |b.pools| == |b.merges| && b.merges[repo] == {} && n !in b.pools[repo]
    ensures Step(b, P.AtMerge(repo), cap, P.LeaseMerge(n), b.Merge(repo, n))
  {
    forall c, s | Image(b, s) && P.Inv(c, s) && s.pc == P.AtMerge(repo) && c.cap == cap
      ensures P.Enabled(c, s, P.LeaseMerge(n)) && Image(b.Merge(repo, n), P.Do(c, s, P.LeaseMerge(n)))
    {
      GuardsAgree(c, b, s, repo, n);
      LeaseTakes(c, s, n);
      LeaseImage(b, s, repo, n, P.AtSweep(repo));
    }
  }

  /** The promise holds this build slot and may settle. */
  ghost predicate SettlesBuild(c: P.Config, s: P.State, id: nat, slot: P.Slot) {
    P.Enabled(c, s, P.Settle(id)) && s.live[id].slot == slot && !s.live[id].merge
  }

  /** From every state the old books are of, settling the promise of this build slot leaves a state the new ones are of. */
  ghost predicate Settling(b: Books, slot: P.Slot, b': Books) {
    forall c, s, id | Image(b, s) && P.Inv(c, s) && SettlesBuild(c, s, id, slot) :: Image(b', P.Do(c, s, P.Settle(id)))
  }

  lemma SettleTakes(c: P.Config, s: P.State, id: nat, slot: P.Slot)
    requires P.OneMaster(s) && SettlesBuild(c, s, id, slot)
    ensures var t := P.Do(c, s, P.Settle(id));
            && t.builds == s.builds - {slot} && t.merges == s.merges && t.lease == s.lease
            && (s.lease.Some? && s.lease.value in s.live ==>
                  s.lease.value in t.live && t.live[s.lease.value] == s.live[s.lease.value])
  {
  }

  /** A build promise settling frees its issue in its own repo's pool. */
  lemma FreeSettles(b: Books, repo: nat, n: nat)
    requires repo < |b.pools|
    ensures Settling(b, P.Slot(repo, n), b.Free(repo, n))
  {
    forall c, s, id | Image(b, s) && P.Inv(c, s) && SettlesBuild(c, s, id, P.Slot(repo, n))
      ensures Image(b.Free(repo, n), P.Do(c, s, P.Settle(id)))
    {
      SettleTakes(c, s, id, P.Slot(repo, n));
      FreeHolds(b.pools, s.builds, repo, n);
    }
  }

  /** The master's holder letting go of the lease lets go of it in the protocol and in the books. */
  lemma ReleaseImage(c: P.Config, b: Books, s: P.State, id: nat)
    requires P.Enabled(c, s, P.Release(id)) && Image(b, s)
    ensures b.holder == Some(s.live[id].slot) && Image(b.(holder := None), P.Do(c, s, P.Release(id)))
  {
  }

  // ---------------------------------------------------------------- a run of resumes

  /** The protocol takes resumes only, and gets from `s` to `t`. */
  ghost predicate Resumes(c: P.Config, s: P.State, t: P.State) {
    exists events: seq<P.Event> :: P.Run(c, s, events) == Some(t) && forall e | e in events :: e.Resume? || e.ResumeMaster?
  }

  lemma {:induction false} RunSnoc(c: P.Config, s: P.State, events: seq<P.Event>, e: P.Event)
    requires P.Run(c, s, events).Some? && P.Enabled(c, P.Run(c, s, events).value, e)
    ensures P.Run(c, s, events + [e]) == Some(P.Do(c, P.Run(c, s, events).value, e))
    decreases events
  {
    if events == [] {
      assert events + [e] == [e] && [e][1..] == [];
    } else {
      assert (events + [e])[1..] == events[1..] + [e];
      RunSnoc(c, P.Do(c, s, events[0]), events[1..], e);
    }
  }

  lemma NoResume(c: P.Config, s: P.State)
    ensures Resumes(c, s, s)
  {
    assert P.Run(c, s, []) == Some(s);
  }

  lemma OneMoreResume(c: P.Config, s: P.State, t: P.State, e: P.Event)
    requires Resumes(c, s, t) && P.Enabled(c, t, e) && (e.Resume? || e.ResumeMaster?)
    ensures Resumes(c, s, P.Do(c, t, e))
  {
    var events: seq<P.Event> :| P.Run(c, s, events) == Some(t) && forall x | x in events :: x.Resume? || x.ResumeMaster?;
    RunSnoc(c, s, events, e);
  }

  lemma {:induction false} ResumeRunStays(c: P.Config, s: P.State, events: seq<P.Event>)
    requires s.pc.AtResume? && P.Run(c, s, events).Some? && forall e | e in events :: e.Resume? || e.ResumeMaster?
    ensures P.Run(c, s, events).value.pc == s.pc
    decreases events
  {
    if events != [] {
      assert events[0] in events;
      ResumeRunStays(c, P.Do(c, s, events[0]), events[1..]);
    }
  }

  /** Resumes keep the invariant, and the driver where it is. */
  lemma ResumesStay(c: P.Config, s: P.State, t: P.State)
    requires P.Inv(c, s) && s.pc.AtResume? && Resumes(c, s, t)
    ensures P.Inv(c, t) && t.pc == s.pc
  {
    var events: seq<P.Event> :| P.Run(c, s, events) == Some(t) && forall e | e in events :: e.Resume? || e.ResumeMaster?;
    P.RunKeeps(c, s, events);
    ResumeRunStays(c, s, events);
  }

  function ResumeOf(master: bool, n: nat): P.Event { if master then P.ResumeMaster(n) else P.Resume(n) }

  lemma ResumeTakes(c: P.Config, s: P.State, master: bool, n: nat)
    requires s.pc.AtResume? && P.MayOccupy(c, s, P.Slot(s.pc.repo, n)) && (master ==> s.lease.None?)
    ensures P.Enabled(c, s, ResumeOf(master, n))
    ensures P.Do(c, s, ResumeOf(master, n)) == P.Occupy(s, P.Slot(s.pc.repo, n), master, s.pc)
  {
  }

  /** From every state the old books are of, the protocol can take resumes to a state the new ones are of. */
  ghost predicate Resuming(b: Books, repo: nat, cap: nat, b': Books) {
    forall c, s | Image(b, s) && P.Inv(c, s) && s.pc == P.AtResume(repo) && c.cap == cap ::
      exists t :: Resumes(c, s, t) && Image(b', t)
  }

  lemma NoneResumed(b: Books, repo: nat, cap: nat)
    ensures Resuming(b, repo, cap, b)
  {
    forall c, s | Image(b, s)
      ensures Resumes(c, s, s)
    {
      NoResume(c, s);
    }
  }

  lemma ResumeImage(c: P.Config, b: Books, s: P.State, t: P.State, repo: nat, master: bool, n: nat)
    requires P.Inv(c, s) && s.pc == P.AtResume(repo) && Resumes(c, s, t) && Image(b, t) && repo < |b.pools|
    requires b.Build() < c.cap && n !in b.pools[repo] && (master ==> b.holder.None?)
    ensures exists u :: Resumes(c, s, u) && Image(b.Take(repo, n, master), u)
  {
    ResumesStay(c, s, t);
    GuardsAgree(c, b, t, repo, n);
    ResumeTakes(c, t, master, n);
    OneMoreResume(c, s, t, ResumeOf(master, n));
    OccupyImage(b, t, repo, n, master, t.pc);
  }

  /** One more resume that the reconcilers' guards allow is one more step of the protocol's run of resumes. */
  lemma OneMoreResumed(first: Books, b: Books, repo: nat, cap: nat, master: bool, n: nat)
    requires Resuming(first, repo, cap, b) && repo < |b.pools|
    requires b.Build() < cap && n !in b.pools[repo] && (master ==> b.holder.None?)
    ensures Resuming(first, repo, cap, b.Take(repo, n, master))
  {
    forall c, s | Image(first, s) && P.Inv(c, s) && s.pc == P.AtResume(repo) && c.cap == cap
      ensures exists u :: Resumes(c, s, u) && Image(b.Take(repo, n, master), u)
    {
      var t :| Resumes(c, s, t) && Image(b, t);
      ResumeImage(c, b, s, t, repo, master, n);
    }
  }
}
