/** Which open issues to launch this tick, and in what order. */
module Admission {
  import opened Wrappers
  import opened Labels
  import opened Seqs
  import opened Sorting

  // ---------------------------------------------------------------- the gate

  datatype GateReason = NotOpen | NotReady | NotAfk | IsHitl | IsPausedIssue | LogIssue | NoMode

  /** A dependency the issue names; one in another repository cannot be evaluated. */
  datatype Ref = Local(n: nat) | Foreign(text: string)

  datatype Blocker = Blocker(ref: Ref, satisfied: bool)

  datatype Verdict = Eligible(mode: Mode) | Rejected(reason: GateReason) | Blocked(blockers: seq<Blocker>)

  /** The checks that need no lookup, cheapest first. */
  function GateLabels(issue: Issue): Verdict {
    var labels := issue.labels;
    if !issue.open then Rejected(NotOpen)
    else if Ready !in labels then Rejected(NotReady)
    else if Afk !in labels then Rejected(NotAfk)
    else if Hitl in labels then Rejected(IsHitl)
    else if exists l | l in labels :: IsPaused(l) then Rejected(IsPausedIssue)
    else if exists l | l in labels :: l.Log? then Rejected(LogIssue)
    else
      match ReadMode(labels)
      case None => Rejected(NoMode)
      case Some(mode) => Eligible(mode)
  }

  function BlockedVerdict(blockers: seq<Blocker>, pass: Verdict): Verdict {
    if exists b | b in blockers :: !b.satisfied then Blocked(blockers) else pass
  }

  /** Each reference with its answer; a reference to another repository is never satisfied. */
  function Blockers(issue: Issue, satisfied: nat -> bool): seq<Blocker> {
    Map(issue.refs, (n: nat) => Blocker(Local(n), satisfied(n)))
    + Map(issue.crossRepo, (text: string) => Blocker(Foreign(text), false))
  }

  /** The gate with every dependency already answered. */
  function EvaluateGate(issue: Issue, satisfied: nat -> bool): Verdict {
    var pass := GateLabels(issue);
    if pass.Eligible? then BlockedVerdict(Blockers(issue, satisfied), pass) else pass
  }

  /** What an issue needs besides a mode and satisfied dependencies. */
  ghost predicate OtherwiseReady(issue: Issue) {
    issue.open && Ready in issue.labels && Afk in issue.labels && Hitl !in issue.labels
    && forall l | l in issue.labels :: !IsPaused(l) && !l.Log?
  }

  ghost predicate Unblocked(issue: Issue, satisfied: nat -> bool) {
    issue.crossRepo == [] && forall n | n in issue.refs :: satisfied(n)
  }

  lemma BlockersUnsatisfied(issue: Issue, satisfied: nat -> bool)
    ensures (exists b | b in Blockers(issue, satisfied) :: !b.satisfied) <==> !Unblocked(issue, satisfied)
  {
    var bs := Blockers(issue, satisfied);
    if n :| n in issue.refs && !satisfied(n) {
      var i :| 0 <= i < |issue.refs| && issue.refs[i] == n;
      assert bs[i] == Blocker(Local(n), false);
    } else if issue.crossRepo != [] {
      assert bs[|issue.refs|] == Blocker(Foreign(issue.crossRepo[0]), false);
    }
  }

  /** Admission in one line: otherwise ready, a mode, and nothing unmet that it names. */
  lemma GateMeaning(issue: Issue, satisfied: nat -> bool)
    ensures var v := EvaluateGate(issue, satisfied);
            && (v.Eligible? <==> OtherwiseReady(issue) && ReadMode(issue.labels).Some? && Unblocked(issue, satisfied))
            && (v.Eligible? ==> ReadMode(issue.labels) == Some(v.mode))
            && (v == Rejected(NoMode) <==> OtherwiseReady(issue) && ReadMode(issue.labels).None?)
            && (v.Blocked? <==> OtherwiseReady(issue) && ReadMode(issue.labels).Some? && !Unblocked(issue, satisfied))
  {
    BlockersUnsatisfied(issue, satisfied);
  }

  /** What waits for a human, what the daemon has parked, and what it has marked. */
  const PAUSED: set<Label> := {AwaitingAnswer, ReviewMaxed, AgentStuck, DaemonAnomaly, AwaitingMerge, AwaitingCi, MasterTriage}

  /** A rejection names the first requirement the issue misses, in the order the gate asks. */
  lemma GateReasons(issue: Issue, satisfied: nat -> bool)
    ensures var v := EvaluateGate(issue, satisfied);
            var paused, log := issue.labels * PAUSED != {}, exists l | l in issue.labels :: l.Log?;
            && (v == Rejected(NotOpen) <==> !issue.open)
            && (v == Rejected(NotReady) <==> issue.open && Ready !in issue.labels)
            && (v == Rejected(NotAfk) <==> issue.open && Ready in issue.labels && Afk !in issue.labels)
            && (v == Rejected(IsHitl) <==> issue.open && {Ready, Afk, Hitl} <= issue.labels)
            && (v == Rejected(IsPausedIssue) <==> issue.open && {Ready, Afk} <= issue.labels && Hitl !in issue.labels && paused)
            && (v == Rejected(LogIssue) <==> issue.open && {Ready, Afk} <= issue.labels && Hitl !in issue.labels && !paused && log)
  {
    BlockersUnsatisfied(issue, satisfied);
    assert forall l :: l in PAUSED <==> IsPaused(l);
    assert issue.labels * PAUSED != {} <==> exists l | l in issue.labels :: IsPaused(l) by {
      if l :| l in issue.labels && IsPaused(l) {
        assert l in issue.labels * PAUSED;
      }
    }
  }

  /** Only the answers for the issue's own references matter. */
  lemma GateDependsOnRefs(issue: Issue, f: nat -> bool, g: nat -> bool)
    requires GateLabels(issue).Eligible? ==> forall n | n in issue.refs :: f(n) == g(n)
    ensures EvaluateGate(issue, f) == EvaluateGate(issue, g)
  {
    if GateLabels(issue).Eligible? {
      assert Map(issue.refs, (n: nat) => Blocker(Local(n), f(n))) == Map(issue.refs, (n: nat) => Blocker(Local(n), g(n)));
    }
  }

  // ---------------------------------------------------------------- the dependency memo

  /**
   * The per-pass memo over a lookup whose answer may change from one call to the next:
   * `port(k, n)` is what the k-th lookup would answer for `n`.
   */
  class DepCache {
    const port: (nat, nat) -> bool
    var cache: map<nat, bool>
    var calls: seq<nat>

    /** Each reference was looked up at most once, and the memo holds what that lookup said. */
    ghost predicate Valid()
      reads this
    {
      && (forall i, j | 0 <= i < j < |calls| :: calls[i] != calls[j])
      && (forall n :: n in calls <==> n in cache)
      && (forall i | 0 <= i < |calls| :: cache[calls[i]] == port(i, calls[i]))
    }

    constructor (port: (nat, nat) -> bool)
      ensures Valid() && calls == [] && this.port == port
    {
      this.port := port;
      cache, calls := map[], [];
    }

    method Resolve(n: nat) returns (satisfied: bool)
      requires Valid()
      modifies this
      ensures Valid() && n in cache && satisfied == cache[n]
      ensures cache == old(cache)[n := satisfied]
      ensures n in old(cache) ==> cache == old(cache) && calls == old(calls)
      ensures n !in old(cache) ==> calls == old(calls) + [n]
    {
      if n in cache {
        return cache[n];
      }
      satisfied := port(|calls|, n);
      calls := calls + [n];
      cache := cache[n := satisfied];
    }
  }

  /** `f` answers as the memo does, wherever the memo answers. */
  ghost predicate Agrees(f: nat -> bool, cache: map<nat, bool>) {
    forall n | n in cache :: f(n) == cache[n]
  }

  ghost predicate Extends(cache: map<nat, bool>, earlier: map<nat, bool>) {
    forall n | n in earlier :: n in cache && cache[n] == earlier[n]
  }

  /** Resolve every reference in order through the memo. */
  method ResolveRefs(refs: seq<nat>, deps: DepCache) returns (blockers: seq<Blocker>)
    requires deps.Valid()
    modifies deps
    ensures deps.Valid() && Extends(deps.cache, old(deps.cache))
    ensures forall n :: n in deps.cache <==> n in old(deps.cache) || n in refs
    ensures |blockers| == |refs|
    ensures forall k | 0 <= k < |refs| :: refs[k] in deps.cache && blockers[k] == Blocker(Local(refs[k]), deps.cache[refs[k]])
  {
    blockers := [];
    ghost var done: seq<nat> := [];
    for i := 0 to |refs|
      invariant deps.Valid() && Extends(deps.cache, old(deps.cache))
      invariant done == refs[..i] && |blockers| == i
      invariant forall n :: n in deps.cache <==> n in old(deps.cache) || n in done
      invariant forall k | 0 <= k < i :: refs[k] in deps.cache && blockers[k] == Blocker(Local(refs[k]), deps.cache[refs[k]])
    {
      done := done + [refs[i]];
      var satisfied := deps.Resolve(refs[i]);
      blockers := blockers + [Blocker(Local(refs[i]), satisfied)];
    }
    assert refs[..|refs|] == refs;
  }

  lemma ResolvedBlockers(issue: Issue, local: seq<Blocker>, cache: map<nat, bool>, f: nat -> bool)
    requires |local| == |issue.refs| && Agrees(f, cache)
    requires forall k | 0 <= k < |local| :: issue.refs[k] in cache && local[k] == Blocker(Local(issue.refs[k]), cache[issue.refs[k]])
    ensures local + Map(issue.crossRepo, (text: string) => Blocker(Foreign(text), false)) == Blockers(issue, f)
  {
    assert local == Map(issue.refs, (n: nat) => Blocker(Local(n), f(n)));
  }

  /** The asynchronous finisher agrees with the synchronous gate under the answers it got, and asks nothing needless. */
  method GateOne(issue: Issue, deps: DepCache) returns (v: Verdict)
    requires deps.Valid()
    modifies deps
    ensures deps.Valid() && Extends(deps.cache, old(deps.cache))
    ensures forall f: nat -> bool | Agrees(f, deps.cache) :: v == EvaluateGate(issue, f)
    ensures forall n :: n in deps.cache <==> n in old(deps.cache) || (GateLabels(issue).Eligible? && n in issue.refs)
  {
    v := GateLabels(issue);
    if !v.Eligible? {
      return;
    }
    var local := ResolveRefs(issue.refs, deps);
    var foreign := Map(issue.crossRepo, (text: string) => Blocker(Foreign(text), false));
    forall f: nat -> bool | Agrees(f, deps.cache)
      ensures local + foreign == Blockers(issue, f)
    {
      ResolvedBlockers(issue, local, deps.cache, f);
    }
    v := BlockedVerdict(local + foreign, v);
  }

  // ---------------------------------------------------------------- scheduling order

  /** The place of the most urgent priority label carried, if any is. */
  function Rank(labels: set<Label>, priorities: seq<Label>): (r: Option<nat>)
    ensures r.None? ==> forall i | 0 <= i < |priorities| :: priorities[i] !in labels
    ensures r.Some? ==> r.value < |priorities| && priorities[r.value] in labels
    ensures r.Some? ==> forall i | 0 <= i < r.value :: priorities[i] !in labels
  {
    if priorities == [] then None
    else if priorities[0] in labels then Some(0)
    else match Rank(labels, priorities[1..]) case None => None case Some(i) => Some(i + 1)
  }

  function IndexOf(l: Label, priorities: seq<Label>): (r: Option<nat>)
    ensures r.None? ==> l !in priorities
    ensures r.Some? ==> r.value < |priorities| && priorities[r.value] == l && l !in priorities[..r.value]
  {
    if priorities == [] then None
    else if priorities[0] == l then Some(0)
    else match IndexOf(l, priorities[1..]) case None => None case Some(i) => Some(i + 1)
  }

  /** The loop over an issue's labels finds the rank whatever order the labels come in. */
  method PriorityRank(labels: seq<Label>, priorities: seq<Label>) returns (best: Option<nat>)
    ensures best == Rank((set l | l in labels), priorities)
  {
    best := None;
    for k := 0 to |labels|
      invariant best.Some? ==> best.value < |priorities| && priorities[best.value] in labels[..k]
      invariant forall i | 0 <= i < |priorities| && priorities[i] in labels[..k] :: best.Some? && best.value <= i
    {
      assert labels[..k + 1] == labels[..k] + [labels[k]];
      var index := IndexOf(labels[k], priorities);
      if index.Some? && (best.None? || index.value < best.value) {
        best := index;
      }
    }
    assert labels[..|labels|] == labels;
  }

  /** The rank as a number: an issue without a priority label comes last. */
  function Urgency(issue: Issue, priorities: seq<Label>): nat {
    match Rank(issue.labels, priorities) case Some(i) => i case None => |priorities|
  }

  /** Oldest first, then most urgent, then by number. */
  predicate Precedes(a: Issue, b: Issue, priorities: seq<Label>) {
    a.createdAt < b.createdAt
    || (a.createdAt == b.createdAt
        && (Urgency(a, priorities) < Urgency(b, priorities)
            || (Urgency(a, priorities) == Urgency(b, priorities) && a.number <= b.number)))
  }

  // ---------------------------------------------------------------- the launch plan

  datatype Exclusion =
    | Gate(reason: GateReason) | Unmet(blockers: seq<Blocker>)
    | InFlight | Held | NoProvider | NoMemory

  datatype Picked = Picked(issue: Issue, mode: Mode)
  datatype Excluded = Excluded(issue: Issue, why: Exclusion)
  datatype Plan = Plan(picked: seq<Picked>, eligible: seq<Picked>, excluded: seq<Excluded>)

  datatype World = World(
    inFlight: nat -> bool,
    run: nat -> Option<Status>,
    openSlots: int,
    priorities: seq<Label>,
    providerHeadroom: bool,
    memoryHeadroom: bool)

  function Order(priorities: seq<Label>): (Picked, Picked) -> bool {
    (a: Picked, b: Picked) => Precedes(a.issue, b.issue, priorities)
  }

  /** A run row that keeps its issue from a fresh launch. */
  predicate Holds(run: Option<Status>) { run.Some? && !ReAdmittable(run.value) }

  datatype Judgement = Admit(mode: Mode) | Drop(why: Exclusion)

  function OfVerdict(v: Verdict): Judgement {
    match v
    case Eligible(mode) => Admit(mode)
    case Rejected(reason) => Drop(Gate(reason))
    case Blocked(blockers) => Drop(Unmet(blockers))
  }

  function Judge(issue: Issue, world: World, satisfied: nat -> bool): Judgement {
    if world.inFlight(issue.number) then Drop(InFlight)
    else if Holds(world.run(issue.number)) then Drop(Held)
    else OfVerdict(EvaluateGate(issue, satisfied))
  }

  function Survivor(world: World, satisfied: nat -> bool): Issue -> Option<Picked> {
    (issue: Issue) => match Judge(issue, world, satisfied) case Admit(mode) => Some(Picked(issue, mode)) case Drop(_) => None
  }

  function Dropped(world: World, satisfied: nat -> bool): Issue -> Option<Excluded> {
    (issue: Issue) => match Judge(issue, world, satisfied) case Admit(_) => None case Drop(why) => Some(Excluded(issue, why))
  }

  /** The wait that holds the whole queue, provider first. */
  function Wait(world: World): Option<Exclusion> {
    if !world.providerHeadroom then Some(NoProvider)
    else if !world.memoryHeadroom then Some(NoMemory)
    else None
  }

  function Max0(n: int): nat { if n < 0 then 0 else n }

  function Take<T>(s: seq<T>, n: nat): seq<T> { if n < |s| then s[..n] else s }

  /** The plan under fixed dependency answers. */
  function PlanOf(issues: seq<Issue>, world: World, satisfied: nat -> bool): Plan {
    var ordered := Sort(Collect(issues, Survivor(world, satisfied)), Order(world.priorities));
    var dropped := Collect(issues, Dropped(world, satisfied));
    if ordered != [] && Wait(world).Some? then
      Plan([], [], dropped + Map(ordered, (p: Picked) => Excluded(p.issue, Wait(world).value)))
    else
      Plan(Take(ordered, Max0(world.openSlots)), ordered, dropped)
  }

  /** The references some issue's gate has to ask about, each issue judged in its own view of what is running. */
  ghost predicate Consulted(issues: seq<Issue>, views: nat -> World, n: nat) {
    exists i: nat | i < |issues| :: Asks(issues[i], views(i), n)
  }

  predicate Asks(issue: Issue, view: World, n: nat) {
    !view.inFlight(issue.number) && !Holds(view.run(issue.number)) && GateLabels(issue).Eligible? && n in issue.refs
  }

  predicate SameView(number: nat, a: World, b: World) {
    a.inFlight(number) == b.inFlight(number) && a.run(number) == b.run(number)
  }

  /** `w` shows every issue as the pass saw it when it came to that issue. */
  ghost predicate Saw(issues: seq<Issue>, views: nat -> World, w: World) {
    forall i: nat | i < |issues| :: SameView(issues[i].number, views(i), w)
  }

  /** `w` has the limits the pass schedules under. */
  predicate SameLimits(w: World, world: World) {
    && w.openSlots == world.openSlots && w.priorities == world.priorities
    && w.providerHeadroom == world.providerHeadroom && w.memoryHeadroom == world.memoryHeadroom
  }

  /** The exclusions the pass owns, then the gate. */
  method JudgeOne(issue: Issue, world: World, deps: DepCache) returns (j: Judgement)
    requires deps.Valid()
    modifies deps
    ensures deps.Valid() && Extends(deps.cache, old(deps.cache))
    ensures forall f: nat -> bool | Agrees(f, deps.cache) :: j == Judge(issue, world, f)
    ensures forall n :: n in deps.cache <==> n in old(deps.cache) || Asks(issue, world, n)
  {
    if world.inFlight(issue.number) {
      return Drop(InFlight);
    }
    if Holds(world.run(issue.number)) {
      return Drop(Held);
    }
    var v := GateOne(issue, deps);
    j := OfVerdict(v);
  }

  /** The survivors and the exclusions a world and its answers make of these issues. */
  ghost predicate Splits(issues: seq<Issue>, w: World, f: nat -> bool, eligible: seq<Picked>, excluded: seq<Excluded>) {
    eligible == Collect(issues, Survivor(w, f)) && excluded == Collect(issues, Dropped(w, f))
  }

  lemma SplitsSnoc(issues: seq<Issue>, i: nat, w: World, f: nat -> bool, eligible: seq<Picked>, excluded: seq<Excluded>)
    requires i < |issues| && Splits(issues[..i], w, f, eligible, excluded)
    ensures match Judge(issues[i], w, f)
            case Admit(mode) => Splits(issues[..i + 1], w, f, eligible + [Picked(issues[i], mode)], excluded)
            case Drop(why) => Splits(issues[..i + 1], w, f, eligible, excluded + [Excluded(issues[i], why)])
  {
    CollectSnoc(issues, i, Survivor(w, f));
    CollectSnoc(issues, i, Dropped(w, f));
  }

  lemma SawPrefix(issues: seq<Issue>, i: nat, views: nat -> World, w: World)
    requires i < |issues| && Saw(issues[..i + 1], views, w)
    ensures Saw(issues[..i], views, w) && SameView(issues[i].number, views(i), w)
  {
    assert issues[..i + 1][i] == issues[i];
    forall k: nat | k < i
      ensures SameView(issues[..i][k].number, views(k), w)
    {
      assert issues[..i + 1][k] == issues[..i][k];
    }
  }

  lemma ConsultedSnoc(issues: seq<Issue>, i: nat, views: nat -> World, n: nat)
    requires i < |issues|
    ensures Consulted(issues[..i + 1], views, n) <==> Consulted(issues[..i], views, n) || Asks(issues[i], views(i), n)
  {
    assert forall k: nat | k < i :: issues[..i + 1][k] == issues[..i][k];
    assert issues[..i + 1][i] == issues[i];
  }

  /** Order the survivors once, hold them all on a wait, or cap them. */
  method Schedule(eligible: seq<Picked>, excluded: seq<Excluded>, world: World) returns (plan: Plan)
    ensures forall issues, w, f | SameLimits(w, world) && Splits(issues, w, f, eligible, excluded) :: plan == PlanOf(issues, w, f)
  {
    var ordered := Sort(eligible, Order(world.priorities));
    var wait := Wait(world);
    if ordered != [] && wait.Some? {
      var held := excluded;
      for i := 0 to |ordered|
        invariant held == excluded + Map(ordered[..i], (p: Picked) => Excluded(p.issue, wait.value))
      {
        assert ordered[..i + 1] == ordered[..i] + [ordered[i]];
        held := held + [Excluded(ordered[i].issue, wait.value)];
      }
      assert ordered[..|ordered|] == ordered;
      return Plan([], [], held);
    }
    plan := Plan(Take(ordered, Max0(world.openSlots)), ordered, excluded);
  }

  /**
   * One pass over the polled issues. What is running may change between issues and the lookup's
   * answers may drift; the plan is the one those views and answers give, and each reference some
   * issue needs is looked up exactly once.
   */
  method AdmitIssues(issues: seq<Issue>, views: nat -> World, world: World, port: (nat, nat) -> bool)
    returns (plan: Plan, answers: map<nat, bool>, calls: seq<nat>)
    ensures forall w, f: nat -> bool | SameLimits(w, world) && Saw(issues, views, w) && Agrees(f, answers) ::
              plan == PlanOf(issues, w, f)
    ensures forall i, j | 0 <= i < j < |calls| :: calls[i] != calls[j]
    ensures forall n :: n in calls <==> n in answers
    ensures forall i | 0 <= i < |calls| :: answers[calls[i]] == port(i, calls[i])
    ensures forall n :: n in answers <==> Consulted(issues, views, n)
  {
    var deps := new DepCache(port);
    var eligible: seq<Picked>, excluded: seq<Excluded> := [], [];
    for i := 0 to |issues|
      invariant fresh(deps) && deps.Valid() && deps.port == port
      invariant forall w, f: nat -> bool | Saw(issues[..i], views, w) && Agrees(f, deps.cache) ::
                  Splits(issues[..i], w, f, eligible, excluded)
      invariant forall n :: n in deps.cache <==> Consulted(issues[..i], views, n)
    {
      ghost var before, survivors, dropped := deps.cache, eligible, excluded;
      var judgement := JudgeOne(issues[i], views(i), deps);
      match judgement {
        case Admit(mode) => eligible := eligible + [Picked(issues[i], mode)];
        case Drop(why) => excluded := excluded + [Excluded(issues[i], why)];
      }
      ghost var seen := issues[..i + 1];
      forall w, f: nat -> bool | Saw(seen, views, w) && Agrees(f, deps.cache)
        ensures Splits(seen, w, f, eligible, excluded)
      {
        assert Agrees(f, before);
        SawPrefix(issues, i, views, w);
        assert judgement == Judge(issues[i], w, f);
        SplitsSnoc(issues, i, w, f, survivors, dropped);
      }
      forall n
        ensures n in deps.cache <==> Consulted(issues[..i + 1], views, n)
      {
        ConsultedSnoc(issues, i, views, n);
      }
    }
    assert issues[..|issues|] == issues;
    answers, calls := deps.cache, deps.calls;
    plan := Schedule(eligible, excluded, world);
  }

  /** Where a number was polled first. */
  function PlaceOf(issues: seq<Issue>, number: nat): (k: nat)
    ensures k <= |issues| && (k < |issues| ==> issues[k].number == number)
    ensures forall i | 0 <= i < k :: issues[i].number != number
  {
    if issues == [] || issues[0].number == number then 0 else 1 + PlaceOf(issues[1..], number)
  }

  /** When each number is polled once, some world shows every issue as the pass saw it. */
  lemma SomeWorldFits(issues: seq<Issue>, views: nat -> World, world: World) returns (w: World)
    requires forall i, j | 0 <= i < j < |issues| :: issues[i].number != issues[j].number
    ensures SameLimits(w, world) && Saw(issues, views, w)
  {
    w := world.(inFlight := (n: nat) => views(PlaceOf(issues, n)).inFlight(n), run := (n: nat) => views(PlaceOf(issues, n)).run(n));
    forall i: nat | i < |issues|
      ensures SameView(issues[i].number, views(i), w)
    {
      assert PlaceOf(issues, issues[i].number) == i;
    }
  }

  // ---------------------------------------------------------------- what the plan is

  lemma OrderIsTotal(priorities: seq<Label>)
    ensures TotalPreorder(Order(priorities))
  {
  }

  /** The issues a plan accounts for. */
  function Accounted(eligible: seq<Picked>, excluded: seq<Excluded>): multiset<Issue> {
    multiset(Map(eligible, (p: Picked) => p.issue)) + multiset(Map(excluded, (e: Excluded) => e.issue))
  }

  /** Moving the queue to the exclusions accounts for the same issues. */
  lemma HoldingAccounts(ordered: seq<Picked>, dropped: seq<Excluded>, why: Exclusion)
    ensures Accounted([], dropped + Map(ordered, (p: Picked) => Excluded(p.issue, why))) == Accounted(ordered, dropped)
  {
    var held := Map(ordered, (p: Picked) => Excluded(p.issue, why));
    MapConcat(dropped, held, (e: Excluded) => e.issue);
    assert Map(held, (e: Excluded) => e.issue) == Map(ordered, (p: Picked) => p.issue);
  }

  lemma JudgedOnce(issues: seq<Issue>, world: World, f: nat -> bool)
    ensures Accounted(Collect(issues, Survivor(world, f)), Collect(issues, Dropped(world, f))) == multiset(issues)
  {
    Partition(issues, Survivor(world, f), Dropped(world, f), (p: Picked) => p.issue, (e: Excluded) => e.issue);
  }

  /** No issue is lost or doubled: the eligible and the excluded together are exactly the input. */
  lemma PlanConserves(issues: seq<Issue>, world: World, f: nat -> bool)
    ensures var plan := PlanOf(issues, world, f);
            Accounted(plan.eligible, plan.excluded) == multiset(issues)
  {
    var survivors, dropped := Collect(issues, Survivor(world, f)), Collect(issues, Dropped(world, f));
    var ordered := Sort(survivors, Order(world.priorities));
    JudgedOnce(issues, world, f);
    assert Accounted(ordered, dropped) == Accounted(survivors, dropped) by {
      OrderIsTotal(world.priorities);
      SortFacts(survivors, Order(world.priorities));
      MapMultiset(ordered, survivors, (p: Picked) => p.issue);
    }
    if Wait(world).Some? {
      HoldingAccounts(ordered, dropped, Wait(world).value);
    }
  }

  /** Whatever priority label `b` carries, `a` carries it or one listed before it. */
  ghost predicate AsUrgent(a: Issue, b: Issue, priorities: seq<Label>) {
    forall p | 0 <= p < |priorities| && priorities[p] in b.labels :: exists q | 0 <= q <= p :: priorities[q] in a.labels
  }

  /** Age decides first, then the priority labels carried, and only then the number. */
  ghost predicate InTurn(a: Issue, b: Issue, priorities: seq<Label>) {
    && a.createdAt <= b.createdAt
    && (a.createdAt == b.createdAt ==> AsUrgent(a, b, priorities))
    && (a.createdAt == b.createdAt && AsUrgent(b, a, priorities) ==> a.number <= b.number)
  }

  lemma UrgencyMeaning(a: Issue, b: Issue, priorities: seq<Label>)
    ensures Urgency(a, priorities) <= Urgency(b, priorities) <==> AsUrgent(a, b, priorities)
  {
    var i, j := Rank(a.labels, priorities), Rank(b.labels, priorities);
    if AsUrgent(a, b, priorities) && j.Some? {
      assert priorities[j.value] in b.labels;
    }
  }

  lemma PrecedingIsInTurn(a: Issue, b: Issue, priorities: seq<Label>)
    requires Precedes(a, b, priorities)
    ensures InTurn(a, b, priorities)
  {
    UrgencyMeaning(a, b, priorities);
    UrgencyMeaning(b, a, priorities);
  }

  /** The launched issues are the front of a queue in scheduling order, as many as there are slots. */
  lemma PickedIsTheFront(issues: seq<Issue>, world: World, f: nat -> bool)
    ensures var plan := PlanOf(issues, world, f);
            && (forall i, j | 0 <= i < j < |plan.eligible| :: InTurn(plan.eligible[i].issue, plan.eligible[j].issue, world.priorities))
            && plan.picked <= plan.eligible
            && |plan.picked| == (if world.openSlots < 0 then 0
                                 else if world.openSlots < |plan.eligible| then world.openSlots else |plan.eligible|)
  {
    OrderIsTotal(world.priorities);
    SortFacts(Collect(issues, Survivor(world, f)), Order(world.priorities));
    var queue := PlanOf(issues, world, f).eligible;
    forall i, j | 0 <= i < j < |queue|
      ensures InTurn(queue[i].issue, queue[j].issue, world.priorities)
    {
      PrecedingIsInTurn(queue[i].issue, queue[j].issue, world.priorities);
    }
  }

  /** Of two eligible issues of one age, the one with a priority label the other has neither that nor a more urgent one of goes first. */
  lemma MoreUrgentGoesFirst(issues: seq<Issue>, world: World, f: nat -> bool, i: nat, j: nat, p: nat)
    requires var queue := PlanOf(issues, world, f).eligible;
             && i < |queue| && j < |queue| && queue[i].issue.createdAt == queue[j].issue.createdAt
             && p < |world.priorities| && world.priorities[p] in queue[i].issue.labels
             && forall q | 0 <= q <= p :: world.priorities[q] !in queue[j].issue.labels
    ensures i < j
  {
    var queue := PlanOf(issues, world, f).eligible;
    PickedIsTheFront(issues, world, f);
    assert !AsUrgent(queue[j].issue, queue[i].issue, world.priorities);
  }

  /** Who is eligible: exactly the polled issues no exclusion and no wait holds, with the mode their labels declare. */
  lemma EligibleExactly(issues: seq<Issue>, world: World, f: nat -> bool, issue: Issue, mode: Mode)
    ensures Picked(issue, mode) in PlanOf(issues, world, f).eligible <==>
            && issue in issues && world.providerHeadroom && world.memoryHeadroom
            && !world.inFlight(issue.number) && !Holds(world.run(issue.number))
            && OtherwiseReady(issue) && Unblocked(issue, f) && ReadMode(issue.labels) == Some(mode)
  {
    var survivors := Collect(issues, Survivor(world, f));
    OrderIsTotal(world.priorities);
    SortFacts(survivors, Order(world.priorities));
    CollectMembers(issues, Survivor(world, f));
    GateMeaning(issue, f);
    if issue in issues && Survivor(world, f)(issue) == Some(Picked(issue, mode)) {
      assert Picked(issue, mode) in survivors;
    }
  }

  /** A missing provider, or else short memory, launches nothing and excludes, in order, exactly what would have been eligible. */
  lemma WaitHoldsTheQueue(issues: seq<Issue>, world: World, free: World, f: nat -> bool)
    requires (!world.providerHeadroom || !world.memoryHeadroom) && free == world.(providerHeadroom := true, memoryHeadroom := true)
    ensures var plan, clear := PlanOf(issues, world, f), PlanOf(issues, free, f);
            && plan.picked == [] && plan.eligible == []
            && plan.excluded == clear.excluded + Map(clear.eligible, (p: Picked) =>
                                  Excluded(p.issue, if world.providerHeadroom then NoMemory else NoProvider))
  {
    SameJudgements(issues, world, free, f);
    var ordered := Sort(Collect(issues, Survivor(world, f)), Order(world.priorities));
    if ordered == [] {
      assert Map(ordered, (p: Picked) => Excluded(p.issue, Wait(world).value)) == [];
    }
  }

  lemma {:induction false} SameJudgements(issues: seq<Issue>, a: World, b: World, f: nat -> bool)
    requires a.inFlight == b.inFlight && a.run == b.run
    ensures Collect(issues, Survivor(a, f)) == Collect(issues, Survivor(b, f))
    ensures Collect(issues, Dropped(a, f)) == Collect(issues, Dropped(b, f))
  {
    if issues != [] {
      SameJudgements(issues[1..], a, b, f);
    }
  }

  ghost predicate DistinctNumbers(issues: seq<Issue>) {
    forall a, b | a in issues && b in issues && a.number == b.number :: a == b
  }

  lemma SurvivorsTieFree(issues: seq<Issue>, world: World, f: nat -> bool)
    requires DistinctNumbers(issues)
    ensures TieFree(Collect(issues, Survivor(world, f)), Order(world.priorities))
  {
    CollectMembers(issues, Survivor(world, f));
  }

  lemma QueueIsCanonical(issues: seq<Issue>, polled: seq<Issue>, world: World, f: nat -> bool)
    requires multiset(issues) == multiset(polled) && DistinctNumbers(issues)
    ensures Sort(Collect(issues, Survivor(world, f)), Order(world.priorities))
            == Sort(Collect(polled, Survivor(world, f)), Order(world.priorities))
  {
    CollectMultiset(issues, polled, Survivor(world, f));
    OrderIsTotal(world.priorities);
    SurvivorsTieFree(issues, world, f);
    SortCanonical(Collect(issues, Survivor(world, f)), Collect(polled, Survivor(world, f)), Order(world.priorities));
  }

  /** The plan does not depend on the order the issues were polled in; only the list of exclusions keeps that order. */
  lemma PlanIsCanonical(issues: seq<Issue>, polled: seq<Issue>, world: World, f: nat -> bool)
    requires multiset(issues) == multiset(polled) && DistinctNumbers(issues)
    ensures var a, b := PlanOf(issues, world, f), PlanOf(polled, world, f);
            a.picked == b.picked && a.eligible == b.eligible && multiset(a.excluded) == multiset(b.excluded)
  {
    CollectMultiset(issues, polled, Dropped(world, f));
    QueueIsCanonical(issues, polled, world, f);
  }

  function IsDropped(world: World, satisfied: nat -> bool): Issue -> bool {
    (issue: Issue) => Judge(issue, world, satisfied).Drop?
  }

  /** The exclusions list the dropped issues in polling order, and are a function of that list. */
  lemma {:induction false} DroppedInOrder(issues: seq<Issue>, world: World, f: nat -> bool)
    ensures Map(Collect(issues, Dropped(world, f)), (e: Excluded) => e.issue) == Filter(issues, IsDropped(world, f))
    ensures Collect(Filter(issues, IsDropped(world, f)), Dropped(world, f)) == Collect(issues, Dropped(world, f))
  {
    if issues != [] {
      DroppedInOrder(issues[1..], world, f);
      if IsDropped(world, f)(issues[0]) {
        KeptHead(issues[0], Filter(issues[1..], IsDropped(world, f)), Dropped(world, f));
        MapHead(Dropped(world, f)(issues[0]).value, Collect(issues[1..], Dropped(world, f)), (e: Excluded) => e.issue);
      }
    }
  }

  lemma SameTail<T>(a: seq<T>, b: seq<T>, tail: seq<T>)
    ensures a + tail == b + tail <==> a == b
  {
    if a + tail == b + tail {
      assert a == (a + tail)[..|a|] && b == (b + tail)[..|b|];
    }
  }

  /**
   * The list of exclusions does depend on the polling order: two passes list them alike exactly when
   * they polled the issues they drop in the same order.
   */
  lemma ExclusionOrderExactly(issues: seq<Issue>, polled: seq<Issue>, world: World, f: nat -> bool)
    requires multiset(issues) == multiset(polled) && DistinctNumbers(issues)
    ensures PlanOf(issues, world, f).excluded == PlanOf(polled, world, f).excluded
            <==> Filter(issues, IsDropped(world, f)) == Filter(polled, IsDropped(world, f))
  {
    var a, b := Collect(issues, Dropped(world, f)), Collect(polled, Dropped(world, f));
    var ordered := Sort(Collect(issues, Survivor(world, f)), Order(world.priorities));
    QueueIsCanonical(issues, polled, world, f);
    DroppedInOrder(issues, world, f);
    DroppedInOrder(polled, world, f);
    if Wait(world).Some? {
      SameTail(a, b, Map(ordered, (p: Picked) => Excluded(p.issue, Wait(world).value)));
    }
  }

  /** Two issues in flight, polled either way round, are excluded that way round. */
  lemma ExclusionOrderMatters(a: Issue, b: Issue, world: World, f: nat -> bool)
    requires a.number != b.number && world.inFlight(a.number) && world.inFlight(b.number)
    ensures PlanOf([a, b], world, f).excluded != PlanOf([b, a], world, f).excluded
  {
    TurnedRound(a, b);
    FilterAll([a, b], IsDropped(world, f));
    FilterAll([b, a], IsDropped(world, f));
    ExclusionOrderExactly([a, b], [b, a], world, f);
  }

  lemma TurnedRound(a: Issue, b: Issue)
    requires a.number != b.number
    ensures [a, b] != [b, a] && multiset([a, b]) == multiset([b, a]) && DistinctNumbers([a, b])
  {
    assert [a, b][0] != [b, a][0];
  }

  /** With a lookup that does not drift, a pass sees its answers and the memo is invisible. */
  lemma MemoIsInvisible(port: (nat, nat) -> bool, f: nat -> bool, answers: map<nat, bool>, calls: seq<nat>)
    requires forall k, n :: port(k, n) == f(n)
    requires forall n :: n in calls <==> n in answers
    requires forall i | 0 <= i < |calls| :: answers[calls[i]] == port(i, calls[i])
    ensures Agrees(f, answers)
  {
    forall n | n in answers
      ensures f(n) == answers[n]
    {
      var i :| 0 <= i < |calls| && calls[i] == n;
    }
  }
}
