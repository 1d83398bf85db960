/** The auto-mode pass and the backlog view: what is missing only a mode, and what is blocked besides. */
module Moding {
  import opened Wrappers
  import opened Labels
  import opened Seqs
  import opened Sorting
  import opened Admission

  // ---------------------------------------------------------------- the synthetic-mode gate

  function WithLabel(issue: Issue, l: Label): Issue { issue.(labels := issue.labels + {l}) }

  /** Would the issue pass if it merely carried a mode? */
  function SyntheticGate(issue: Issue, satisfied: nat -> bool): Verdict {
    EvaluateGate(WithLabel(issue, ModeTdd), satisfied)
  }

  method GateWithSyntheticMode(issue: Issue, deps: DepCache) returns (v: Verdict)
    requires deps.Valid()
    modifies deps
    ensures deps.Valid() && Extends(deps.cache, old(deps.cache))
    ensures forall f: nat -> bool | Agrees(f, deps.cache) :: v == SyntheticGate(issue, f)
  {
    v := GateOne(WithLabel(issue, ModeTdd), deps);
  }

  lemma ModeLabelsPassLabelChecks(issue: Issue, m: Mode)
    ensures OtherwiseReady(WithLabel(issue, ModeLabel(m))) <==> OtherwiseReady(issue)
  {
  }

  lemma OnlyMode(labels: set<Label>, m: Mode)
    requires ReadMode(labels) == None
    ensures ReadMode(labels + {ModeLabel(m)}) == Some(m)
  {
    assert ModeLabel(Tdd) !in labels && ModeLabel(Infra) !in labels && ModeLabel(Ui) !in labels;
  }

  /** A mode is all an issue rejected for its mode lacks, unless a dependency is unmet too. */
  lemma MissingModeSplits(issue: Issue, f: nat -> bool)
    requires EvaluateGate(issue, f) == Rejected(NoMode)
    ensures SyntheticGate(issue, f).Eligible? <==> Unblocked(issue, f)
    ensures SyntheticGate(issue, f).Blocked? <==> !Unblocked(issue, f)
    ensures SyntheticGate(issue, f).Blocked? ==> SyntheticGate(issue, f).blockers == Blockers(issue, f)
  {
    var moded := WithLabel(issue, ModeTdd);
    GateMeaning(issue, f);
    GateMeaning(moded, f);
    ModeLabelsPassLabelChecks(issue, Tdd);
  }

  /** The pass's candidates: no mode today, and a mode is all that is missing. */
  function Qualifies(satisfied: nat -> bool): Issue -> bool {
    (issue: Issue) => ReadMode(issue.labels).None? && SyntheticGate(issue, satisfied).Eligible?
  }

  /** Whatever mode is chosen for a candidate, the gate then admits it in that mode. */
  lemma AnyModeAdmits(issue: Issue, f: nat -> bool, m: Mode)
    requires Qualifies(f)(issue)
    ensures EvaluateGate(WithLabel(issue, ModeLabel(m)), f) == Eligible(m)
    ensures !Qualifies(f)(WithLabel(issue, ModeLabel(m)))
  {
    GateMeaning(WithLabel(issue, ModeTdd), f);
    GateMeaning(WithLabel(issue, ModeLabel(m)), f);
    ModeLabelsPassLabelChecks(issue, Tdd);
    ModeLabelsPassLabelChecks(issue, m);
    OnlyMode(issue.labels, m);
  }

  // ---------------------------------------------------------------- selection

  predicate Older(a: Issue, b: Issue) {
    a.createdAt < b.createdAt || (a.createdAt == b.createdAt && a.number <= b.number)
  }

  lemma OlderIsTotal()
    ensures TotalPreorder(Older)
  {
  }

  /** Every candidate, oldest first. */
  function Selection(issues: seq<Issue>, satisfied: nat -> bool): seq<Issue> {
    Filter(Sort(issues, Older), Qualifies(satisfied))
  }

  /** The candidates are exactly the qualifying issues, an older one always before a newer one. */
  lemma SelectionIsOldestFirst(issues: seq<Issue>, f: nat -> bool)
    ensures var s := Selection(issues, f);
            && (forall issue :: issue in s <==> issue in issues && Qualifies(f)(issue))
            && forall i, j | 0 <= i < j < |s| ::
                 s[i].createdAt < s[j].createdAt || (s[i].createdAt == s[j].createdAt && s[i].number <= s[j].number)
  {
    OlderIsTotal();
    SortFacts(issues, Older);
    FilterKeepsOrder(Sort(issues, Older), Qualifies(f));
  }

  lemma {:induction false} FilterKeepsOrder(s: seq<Issue>, p: Issue -> bool)
    requires SortedBy(s, Older)
    ensures SortedBy(Filter(s, p), Older)
    ensures forall x :: x in Filter(s, p) <==> x in s && p(x)
  {
    if s != [] {
      var rest := Filter(s[1..], p);
      FilterKeepsOrder(s[1..], p);
      assert s == [s[0]] + s[1..];
      forall x | x in rest
        ensures Older(s[0], x)
      {
        var k :| 0 <= k < |s[1..]| && s[1..][k] == x;
        assert s[k + 1] == x;
      }
      assert p(s[0]) ==> Filter(s, p) == [s[0]] + rest;
      assert forall j | 0 <= j < |rest| :: rest[j] in rest;
    }
  }

  /** The pass spends its budget on the oldest candidates and stops. */
  method SelectModingCandidates(issues: seq<Issue>, port: (nat, nat) -> bool, maxPerTick: int)
    returns (candidates: seq<Issue>, answers: map<nat, bool>)
    ensures forall f: nat -> bool | Agrees(f, answers) :: candidates == Take(Selection(issues, f), Max0(maxPerTick))
  {
    candidates, answers := [], map[];
    if maxPerTick <= 0 {
      return;
    }
    var deps := new DepCache(port);
    var ordered := Sort(issues, Older);
    for i := 0 to |ordered|
      invariant fresh(deps) && deps.Valid() && |candidates| <= maxPerTick
      invariant forall f: nat -> bool | Agrees(f, deps.cache) :: candidates == Filter(ordered[..i], Qualifies(f))
    {
      if |candidates| >= maxPerTick {
        forall f: nat -> bool | Agrees(f, deps.cache)
          ensures candidates == Take(Selection(issues, f), Max0(maxPerTick))
        {
          FilterPrefix(ordered, i, Qualifies(f));
        }
        answers := deps.cache;
        return;
      }
      ghost var before := deps.cache;
      var candidate := false;
      if ReadMode(ordered[i].labels).None? {
        var v := GateWithSyntheticMode(ordered[i], deps);
        candidate := v.Eligible?;
      }
      forall f: nat -> bool | Agrees(f, deps.cache)
        ensures candidates + (if candidate then [ordered[i]] else []) == Filter(ordered[..i + 1], Qualifies(f))
      {
        assert Agrees(f, before);
        FilterSnoc(ordered, i, Qualifies(f));
      }
      candidates := candidates + if candidate then [ordered[i]] else [];
    }
    assert ordered[..|ordered|] == ordered;
    answers := deps.cache;
  }

  // ---------------------------------------------------------------- the backlog view

  /** A row of the blocked section. */
  datatype Row = Row(issue: Issue, blockers: seq<Blocker>)

  predicate RowOrder(a: Row, b: Row) { a.issue.number <= b.issue.number }

  predicate NumberOrder(a: Issue, b: Issue) { a.number <= b.number }

  function Candidate(satisfied: nat -> bool): Excluded -> Option<Issue> {
    (e: Excluded) => if e.why == Gate(NoMode) && SyntheticGate(e.issue, satisfied).Eligible? then Some(e.issue) else None
  }

  function AlreadyBlocked(e: Excluded): Option<Row> {
    if e.why.Unmet? then Some(Row(e.issue, e.why.blockers)) else None
  }

  function BlockedBesides(satisfied: nat -> bool): Excluded -> Option<Row> {
    (e: Excluded) =>
      if e.why != Gate(NoMode) then None
      else match SyntheticGate(e.issue, satisfied)
        case Eligible(_) => None
        case Rejected(_) => Some(Row(e.issue, []))
        case Blocked(blockers) => Some(Row(e.issue, blockers))
  }

  function BacklogModing(excluded: seq<Excluded>, satisfied: nat -> bool): seq<Issue> {
    Sort(Collect(excluded, Candidate(satisfied)), NumberOrder)
  }

  function BacklogBlocked(excluded: seq<Excluded>, satisfied: nat -> bool): seq<Row> {
    Sort(Collect(excluded, AlreadyBlocked) + Collect(excluded, BlockedBesides(satisfied)), RowOrder)
  }

  /** Reclassify the exclusions for a missing mode, and sort both sections. */
  method ProjectBacklog(excluded: seq<Excluded>, port: (nat, nat) -> bool)
    returns (blocked: seq<Row>, candidates: seq<Issue>, answers: map<nat, bool>)
    ensures forall f: nat -> bool | Agrees(f, answers) ::
              blocked == BacklogBlocked(excluded, f) && candidates == BacklogModing(excluded, f)
  {
    var deps := new DepCache(port);
    var first := Collect(excluded, AlreadyBlocked);
    var besides: seq<Row> := [];
    candidates := [];
    for i := 0 to |excluded|
      invariant fresh(deps) && deps.Valid()
      invariant forall f: nat -> bool | Agrees(f, deps.cache) ::
                  candidates == Collect(excluded[..i], Candidate(f)) && besides == Collect(excluded[..i], BlockedBesides(f))
    {
      ghost var before := deps.cache;
      var e := excluded[i];
      var candidate: seq<Issue>, row: seq<Row> := [], [];
      if e.why == Gate(NoMode) {
        var v := GateWithSyntheticMode(e.issue, deps);
        match v {
          case Eligible(_) => candidate := [e.issue];
          case Rejected(_) => row := [Row(e.issue, [])];
          case Blocked(blockers) => row := [Row(e.issue, blockers)];
        }
      }
      forall f: nat -> bool | Agrees(f, deps.cache)
        ensures candidates + candidate == Collect(excluded[..i + 1], Candidate(f))
        ensures besides + row == Collect(excluded[..i + 1], BlockedBesides(f))
      {
        assert Agrees(f, before);
        CollectSnoc(excluded, i, Candidate(f));
        CollectSnoc(excluded, i, BlockedBesides(f));
      }
      candidates, besides := candidates + candidate, besides + row;
    }
    assert excluded[..|excluded|] == excluded;
    blocked := Sort(first + besides, RowOrder);
    candidates := Sort(candidates, NumberOrder);
    answers := deps.cache;
  }

  // ---------------------------------------------------------------- the two passes agree

  /** The issues a fresh launch could take at all. */
  function Free(world: World): Issue -> bool {
    (issue: Issue) => !world.inFlight(issue.number) && !Holds(world.run(issue.number))
  }

  /** The rows a wait adds are neither candidates nor blocked. */
  lemma {:induction false} WaitsAddNothing<T>(ordered: seq<Picked>, why: Exclusion, pick: Excluded -> Option<T>)
    requires forall p: Picked :: pick(Excluded(p.issue, why)) == None
    ensures Collect(Map(ordered, (p: Picked) => Excluded(p.issue, why)), pick) == []
  {
    if ordered != [] {
      WaitsAddNothing(ordered[1..], why, pick);
      assert Map(ordered, (p: Picked) => Excluded(p.issue, why))[1..] == Map(ordered[1..], (p: Picked) => Excluded(p.issue, why));
    }
  }

  /** So a section is read off the judgements alone. */
  lemma SectionOfPlan<T>(issues: seq<Issue>, world: World, f: nat -> bool, pick: Excluded -> Option<T>)
    requires forall issue, why: Exclusion | why.NoProvider? || why.NoMemory? :: pick(Excluded(issue, why)) == None
    ensures Collect(PlanOf(issues, world, f).excluded, pick) == Collect(issues, Compose(Dropped(world, f), pick))
  {
    var dropped := Collect(issues, Dropped(world, f));
    var ordered := Sort(Collect(issues, Survivor(world, f)), Order(world.priorities));
    CollectTwice(issues, Dropped(world, f), pick);
    if Wait(world).Some? {
      var waits := Map(ordered, (p: Picked) => Excluded(p.issue, Wait(world).value));
      CollectConcat(dropped, waits, pick);
      WaitsAddNothing(ordered, Wait(world).value, pick);
    }
  }

  function FreeCandidate(world: World, satisfied: nat -> bool): Issue -> bool {
    (issue: Issue) => Qualifies(satisfied)(issue) && Free(world)(issue)
  }

  function IfFreeCandidate(world: World, satisfied: nat -> bool): Issue -> Option<Issue> {
    (issue: Issue) => if FreeCandidate(world, satisfied)(issue) then Some(issue) else None
  }

  lemma CandidateJudged(issue: Issue, world: World, f: nat -> bool)
    ensures Compose(Dropped(world, f), Candidate(f))(issue) == IfFreeCandidate(world, f)(issue)
  {
    GateMeaning(issue, f);
    GateMeaning(WithLabel(issue, ModeTdd), f);
    ModeLabelsPassLabelChecks(issue, Tdd);
    assert FreeCandidate(world, f)(issue) == (Qualifies(f)(issue) && Free(world)(issue));
  }

  lemma ViewIsFilter(issues: seq<Issue>, world: World, f: nat -> bool)
    ensures Collect(PlanOf(issues, world, f).excluded, Candidate(f)) == Filter(issues, FreeCandidate(world, f))
  {
    SectionOfPlan(issues, world, f, Candidate(f));
    forall issue: Issue
      ensures Compose(Dropped(world, f), Candidate(f))(issue) == IfFreeCandidate(world, f)(issue)
    {
      CandidateJudged(issue, world, f);
    }
    CollectCongruent(issues, Compose(Dropped(world, f), Candidate(f)), IfFreeCandidate(world, f));
    CollectIsFilter(issues, world, f);
  }

  lemma {:induction false} CollectIsFilter(issues: seq<Issue>, world: World, f: nat -> bool)
    ensures Collect(issues, IfFreeCandidate(world, f)) == Filter(issues, FreeCandidate(world, f))
  {
    if issues != [] {
      CollectIsFilter(issues[1..], world, f);
    }
  }

  lemma {:induction false} FreeSelection(issues: seq<Issue>, world: World, f: nat -> bool)
    ensures Filter(Filter(issues, Qualifies(f)), Free(world)) == Filter(issues, FreeCandidate(world, f))
  {
    if issues != [] {
      FreeSelection(issues[1..], world, f);
      if Qualifies(f)(issues[0]) {
        assert Filter(issues, Qualifies(f))[1..] == Filter(issues[1..], Qualifies(f));
      }
    }
  }

  /**
   * The backlog's candidates are exactly what the auto-mode pass would select without a cap, less
   * the issues already running or held, whether or not a wait holds the queue.
   */
  lemma BacklogMatchesSelection(issues: seq<Issue>, world: World, f: nat -> bool)
    ensures multiset(BacklogModing(PlanOf(issues, world, f).excluded, f))
            == multiset(Filter(Selection(issues, f), Free(world)))
  {
    var view, oldest := Collect(PlanOf(issues, world, f).excluded, Candidate(f)), Sort(issues, Older);
    ViewIsFilter(issues, world, f);
    SortFacts(view, NumberOrder);
    OlderIsTotal();
    SortFacts(issues, Older);
    FreeSelection(oldest, world, f);
    FilterMultiset(issues, oldest, FreeCandidate(world, f), FreeCandidate(world, f));
  }

  lemma BlockedJudged(issue: Issue, world: World, f: nat -> bool)
    ensures var unmet := Free(world)(issue) && OtherwiseReady(issue) && !Unblocked(issue, f);
            var row := Some(Row(issue, Blockers(issue, f)));
            && Compose(Dropped(world, f), AlreadyBlocked)(issue) == (if unmet && ReadMode(issue.labels).Some? then row else None)
            && Compose(Dropped(world, f), BlockedBesides(f))(issue) == (if unmet && ReadMode(issue.labels).None? then row else None)
  {
    GateMeaning(issue, f);
    if EvaluateGate(issue, f) == Rejected(NoMode) {
      MissingModeSplits(issue, f);
    }
  }

  /**
   * The blocked section shows, with the state of each dependency, exactly the free issues that are
   * otherwise ready and name something unmet, moded or not.
   */
  lemma BlockedSectionExactly(issues: seq<Issue>, world: World, f: nat -> bool, row: Row)
    ensures row in BacklogBlocked(PlanOf(issues, world, f).excluded, f) <==>
            && row.issue in issues && row.blockers == Blockers(row.issue, f)
            && Free(world)(row.issue) && OtherwiseReady(row.issue) && !Unblocked(row.issue, f)
  {
    var excluded := PlanOf(issues, world, f).excluded;
    var a, b := Compose(Dropped(world, f), AlreadyBlocked), Compose(Dropped(world, f), BlockedBesides(f));
    SectionOfPlan(issues, world, f, AlreadyBlocked);
    SectionOfPlan(issues, world, f, BlockedBesides(f));
    SortFacts(Collect(issues, a) + Collect(issues, b), RowOrder);
    CollectMembers(issues, a);
    CollectMembers(issues, b);
    forall issue: Issue
      ensures a(issue) == Some(row) || b(issue) == Some(row) <==>
              issue == row.issue && row.blockers == Blockers(issue, f)
              && Free(world)(issue) && OtherwiseReady(issue) && !Unblocked(issue, f)
    {
      BlockedJudged(issue, world, f);
    }
  }
}
