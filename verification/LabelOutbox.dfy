/** The daemon-set state labels as a level-triggered effect of the run status, and its convergence. */
module LabelOutbox {
  import opened Wrappers
  import opened Labels
  import opened Admission
  import opened Completeness

  /** The state label each run status desires. */
  function EffectLabel(s: Status): Option<Label> {
    match s
    case AwaitingAnswering => Some(AwaitingAnswer)
    case ReviewMaxedOut => Some(ReviewMaxed)
    case Stuck => Some(AgentStuck)
    case AwaitingMerging => Some(AwaitingMerge)
    case InMasterTriage => Some(MasterTriage)
    case _ => None
  }

  const EFFECTS: seq<Label> := [AwaitingAnswer, ReviewMaxed, AgentStuck, AwaitingMerge, MasterTriage]

  predicate IsEffect(l: Label) {
    l.AwaitingAnswer? || l.ReviewMaxed? || l.AgentStuck? || l.AwaitingMerge? || l.MasterTriage?
  }

  /** The list the delivery walks is exactly the effect labels, each of them some status's. */
  lemma EffectsListed()
    ensures forall l :: l in EFFECTS <==> IsEffect(l)
    ensures forall s: Status | EffectLabel(s).Some? :: IsEffect(EffectLabel(s).value)
    ensures forall l | l in EFFECTS :: exists s: Status :: EffectLabel(s) == Some(l)
  {
    assert EffectLabel(AwaitingAnswering) == Some(AwaitingAnswer) && EffectLabel(ReviewMaxedOut) == Some(ReviewMaxed);
    assert EffectLabel(Stuck) == Some(AgentStuck) && EffectLabel(AwaitingMerging) == Some(AwaitingMerge);
    assert EffectLabel(InMasterTriage) == Some(MasterTriage);
    assert EFFECTS[0] == AwaitingAnswer && EFFECTS[1] == ReviewMaxed && EFFECTS[2] == AgentStuck;
    assert EFFECTS[3] == AwaitingMerge && EFFECTS[4] == MasterTriage;
  }

  /** Whatever state label is shown keeps its issue out of admission. */
  lemma EffectsBarAdmission(issue: Issue, satisfied: nat -> bool)
    requires exists s: Status | EffectLabel(s).Some? :: EffectLabel(s).value in issue.labels
    ensures !EvaluateGate(issue, satisfied).Eligible? && issue.labels * PAUSED != {}
  {
    GateMeaning(issue, satisfied);
    var s: Status :| EffectLabel(s).Some? && EffectLabel(s).value in issue.labels;
    assert EffectLabel(s).value in issue.labels * PAUSED && IsPaused(EffectLabel(s).value);
  }

  /** The one state label to show now: none while re-armed, and none that would hide a claim park's marker. */
  function Desired(run: Option<Status>, labels: set<Label>): Option<Label> {
    if run.None? || Ready in labels then None
    else
      match EffectLabel(run.value)
      case None => None
      case Some(l) => if DaemonAnomaly in labels && l !in labels then None else Some(l)
  }

  function NonEffects(labels: set<Label>): set<Label> { set l | l in labels && !IsEffect(l) }

  /** The labels once the effect is delivered. */
  function Overlay(labels: set<Label>, desired: Option<Label>): set<Label> {
    NonEffects(labels) + match desired case Some(l) => {l} case None => {}
  }

  // ---------------------------------------------------------------- delivery

  /** What a delivery that observed `observed` leaves of `labels` when the writes in `failing` fail. */
  function Written(labels: set<Label>, observed: set<Label>, desired: Option<Label>, failing: set<Label>): set<Label> {
    labels
    + (match desired case Some(l) => if IsEffect(l) && l !in observed && l !in failing then {l} else {} case None => {})
    - set l | l in observed && IsEffect(l) && desired != Some(l) && l !in failing
  }

  // The complexity labels, which no decision here reads.
  const TIER_1 := Other("complexity:1")
  const TIER_2 := Other("complexity:2")
  const TIER_3 := Other("complexity:3")

  /** What the first request to the master does to an issue's complexity. */
  function Promoted(labels: set<Label>): set<Label> { labels - {TIER_2, TIER_3} + {TIER_1} }

  /**
   * What comes of a request filed now: an error or an issue no longer open, with or without the
   * promotion done; nothing, because the same request already stands; or a new request.
   */
  datatype Reply = Refused(promoted: bool) | AlreadyQueued | Queued

  /** The issue on GitHub. */
  class IssueLabels {
    var labels: set<Label>

    /** A label write that either lands or fails without effect. */
    method AddLabel(l: Label, failing: set<Label>)
      modifies this
      ensures labels == if l in failing then old(labels) else old(labels) + {l}
    {
      if l !in failing {
        labels := labels + {l};
      }
    }

    method RemoveLabel(l: Label, failing: set<Label>)
      modifies this
      ensures labels == if l in failing then old(labels) else old(labels) - {l}
    {
      if l !in failing {
        labels := labels - {l};
      }
    }

    /** File a request: the promotion, then the request itself; a standing request is not filed twice. */
    method Escalate(was: Option<Status>, reply: Reply) returns (run: Option<Status>, taken: bool)
      modifies this
      ensures labels == if reply.Queued? || reply == Refused(true) then Promoted(old(labels)) else old(labels)
      ensures run == (if reply.Queued? then Some(InMasterTriage) else was) && taken == !reply.Refused?
    {
      run, taken := was, !reply.Refused?;
      match reply {
        case AlreadyQueued =>
        case Refused(false) =>
        case Refused(true) => labels := Promoted(labels);
        case Queued =>
          labels := Promoted(labels);
          run := Some(InMasterTriage);
      }
    }

    /** Reconcile the five effect labels one by one; a failed write is skipped, never fatal. */
    method ReconcileStateLabel(observed: set<Label>, desired: Option<Label>, failing: set<Label>)
      modifies this
      ensures labels == Written(old(labels), observed, desired, failing)
    {
      for i := 0 to |EFFECTS|
        invariant forall l :: l in labels <==>
                    if l in EFFECTS[..i] then l in Written(old(labels), observed, desired, failing) else l in old(labels)
      {
        var l := EFFECTS[i];
        assert l !in EFFECTS[..i] && IsEffect(l);
        if desired == Some(l) && l !in observed {
          AddLabel(l, failing);
        } else if desired != Some(l) && l in observed {
          RemoveLabel(l, failing);
        }
      }
      assert EFFECTS[..|EFFECTS|] == EFFECTS;
      EffectsListed();
    }
  }

  /** One pass over an issue whose labels were read at its start. */
  function Pass(run: Option<Status>, labels: set<Label>, failing: set<Label>): set<Label> {
    Written(labels, labels, Desired(run, labels), failing)
  }

  /** The effect labels that are not as desired. */
  ghost function Mismatch(run: Option<Status>, labels: set<Label>): iset<Label> {
    iset l | IsEffect(l) && (l in labels) != (Desired(run, labels) == Some(l))
  }

  /** No partial delivery changes what is desired, so passes never chase each other. */
  lemma DesiredIsStable(run: Option<Status>, labels: set<Label>, failing: set<Label>)
    ensures Desired(run, Pass(run, labels, failing)) == Desired(run, labels)
    ensures NonEffects(Pass(run, labels, failing)) == NonEffects(labels)
  {
  }

  /** A pass mends exactly the wrong labels whose write succeeds: the mismatch never grows. */
  lemma MismatchShrinks(run: Option<Status>, labels: set<Label>, failing: set<Label>)
    ensures Mismatch(run, Pass(run, labels, failing)) == iset l | l in Mismatch(run, labels) && l in failing
  {
    DesiredIsStable(run, labels, failing);
  }

  /** A set of labels is what delivery aims for exactly when nothing mismatches. */
  lemma NoMismatchIsOverlay(run: Option<Status>, labels: set<Label>)
    ensures Mismatch(run, labels) == iset{} <==> labels == Overlay(labels, Desired(run, labels))
  {
    var o := Overlay(labels, Desired(run, labels));
    assert forall l :: l in o <==> if IsEffect(l) then Desired(run, labels) == Some(l) else l in labels;
    if labels != o {
      var l :| (l in labels) != (l in o);
      assert l in Mismatch(run, labels);
    } else {
      assert forall l :: l !in Mismatch(run, labels);
    }
  }

  /** One pass without failures lands on the overlay, and a pass over the overlay writes nothing. */
  lemma CleanPassDelivers(run: Option<Status>, labels: set<Label>)
    ensures Pass(run, labels, {}) == Overlay(labels, Desired(run, labels))
    ensures Pass(run, Pass(run, labels, {}), {}) == Pass(run, labels, {})
  {
    DesiredIsStable(run, labels, {});
  }

  /** What a clean pass shows of each state, for an issue neither re-armed nor marked: its own label and no other state's. */
  lemma EachStateShowsItsLabel(s: Status, labels: set<Label>)
    requires Ready !in labels && DaemonAnomaly !in labels
    ensures var after := Pass(Some(s), labels, {});
            && (AwaitingAnswer in after <==> s.AwaitingAnswering?)
            && (ReviewMaxed in after <==> s.ReviewMaxedOut?)
            && (AgentStuck in after <==> s.Stuck?)
            && (AwaitingMerge in after <==> s.AwaitingMerging?)
            && (MasterTriage in after <==> s.InMasterTriage?)
            && forall l: Label | l !in {AwaitingAnswer, ReviewMaxed, AgentStuck, AwaitingMerge, MasterTriage} ::
                 l in after <==> l in labels
  {
    CleanPassDelivers(Some(s), labels);
  }

  /** A re-armed issue shows no state's label, and under the marker only one that was shown already. */
  lemma ReArmedOrMarkedShows(s: Status, labels: set<Label>, l: Label)
    requires l in {AwaitingAnswer, ReviewMaxed, AgentStuck, AwaitingMerge, MasterTriage}
    ensures Ready in labels ==> l !in Pass(Some(s), labels, {})
    ensures Ready !in labels && DaemonAnomaly in labels ==>
              (l in Pass(Some(s), labels, {}) <==> l in labels && l in Pass(Some(s), labels - {DaemonAnomaly}, {}))
  {
    CleanPassDelivers(Some(s), labels);
    CleanPassDelivers(Some(s), labels - {DaemonAnomaly});
  }

  /** Passes in a row while the run's status stands, each with its own failing writes. */
  function Passes(run: Option<Status>, labels: set<Label>, failures: seq<set<Label>>): set<Label>
    decreases failures
  {
    if failures == [] then labels else Passes(run, Pass(run, labels, failures[0]), failures[1..])
  }

  /** After any run of passes a label is wrong only if it was wrong at the start and every write of it failed. */
  lemma {:induction false} RunsConverge(run: Option<Status>, labels: set<Label>, failures: seq<set<Label>>)
    ensures var after := Passes(run, labels, failures);
            && Desired(run, after) == Desired(run, labels) && NonEffects(after) == NonEffects(labels)
            && forall l :: l in Mismatch(run, after) <==> l in Mismatch(run, labels) && forall fs | fs in failures :: l in fs
    decreases failures
  {
    if failures != [] {
      var next := Pass(run, labels, failures[0]);
      DesiredIsStable(run, labels, failures[0]);
      MismatchShrinks(run, labels, failures[0]);
      RunsConverge(run, next, failures[1..]);
      assert failures == [failures[0]] + failures[1..];
    }
  }

  /** So once every wrong label has had one successful write, the issue shows exactly the overlay. */
  lemma EventuallyDelivered(run: Option<Status>, labels: set<Label>, failures: seq<set<Label>>)
    requires forall l | l in Mismatch(run, labels) :: exists fs | fs in failures :: l !in fs
    ensures Passes(run, labels, failures) == Overlay(labels, Desired(run, labels))
  {
    var after := Passes(run, labels, failures);
    RunsConverge(run, labels, failures);
    assert forall l :: l !in Mismatch(run, after);
    assert Mismatch(run, after) == iset{};
    NoMismatchIsOverlay(run, after);
  }

  // ---------------------------------------------------------------- classifying against the overlay

  /** What stands outside the labels while the surface pass looks at an issue. */
  datatype Context = Context(
    issue: Issue,
    run: Option<Status>,
    inFlight: bool,
    wedged: bool,
    resumable: bool,
    answered: bool,
    masterUnroutable: bool)

  /** The labels the pass classifies: the overlay where a run backs it, the observed ones otherwise. */
  function Effective(run: Option<Status>, labels: set<Label>): set<Label> {
    if run.None? then labels else Overlay(labels, Desired(run, labels))
  }

  function SnapshotOf(c: Context, labels: set<Label>, satisfied: nat -> bool): Snapshot {
    Snapshot(if c.issue.open then Opened else Shut, labels, c.run, c.inFlight, c.wedged,
             GateEligible(c.issue.(labels := labels), satisfied), c.resumable, c.answered, c.masterUnroutable)
  }

  /** The verdict of the surface pass on an issue showing `labels`. */
  function Assess(c: Context, labels: set<Label>, satisfied: nat -> bool): Classification {
    Classify(SnapshotOf(c, Effective(c.run, labels), satisfied))
  }

  /** Without the anomaly marker, the verdict does not depend on which effect labels GitHub happens to show. */
  lemma VerdictIgnoresEffects(c: Context, labels: set<Label>, shown: set<Label>, f: nat -> bool)
    requires c.run.Some? && DaemonAnomaly !in labels && NonEffects(labels) == NonEffects(shown)
    ensures Effective(c.run, labels) == Effective(c.run, shown)
    ensures Assess(c, labels, f) == Assess(c, shown, f)
  {
    assert Ready in labels <==> Ready in NonEffects(labels);
    assert Ready in shown <==> Ready in NonEffects(shown);
    assert DaemonAnomaly in shown <==> DaemonAnomaly in NonEffects(shown);
  }

  /** With the marker the verdict hangs on one thing: whether a pause that is not re-armed still shows its own label. */
  predicate MarkerMasksPause(c: Context, labels: set<Label>) {
    DaemonAnomaly in labels && Ready !in labels && IsPausedRun(c.run) && c.issue.open && !c.inFlight && !c.resumable
  }

  /**
   * The verdict is the same under every set of shown effect labels exactly when the marker masks
   * no pause.
   */
  lemma VerdictIgnoresEffectsExactly(c: Context, base: set<Label>, f: nat -> bool)
    requires c.run.Some? && base == NonEffects(base)
    ensures (forall shown: set<Label> | NonEffects(shown) == base :: Assess(c, shown, f) == Assess(c, base, f))
            <==> !MarkerMasksPause(c, base)
  {
    if MarkerMasksPause(c, base) {
      var own := PauseLabel(c.run.value);
      var shown := base + {own};
      assert NonEffects(shown) == base;
      assert Desired(c.run, base) == None && Desired(c.run, shown) == Some(own);
      assert own !in Effective(c.run, base) && own in Effective(c.run, shown);
      assert Assess(c, base, f) == Anomaly(PausedRunLabelMissing);
      assert Assess(c, shown, f) != Assess(c, base, f);
    } else {
      forall shown: set<Label> | NonEffects(shown) == base
        ensures Assess(c, shown, f) == Assess(c, base, f)
      {
        SameVerdict(c, base, shown, f);
      }
    }
  }

  /** A pause so masked: the marker alone reads as a missing label, the marker beside the label as a wait. */
  lemma MarkerMasksThisPause(issue: Issue, f: nat -> bool)
    requires issue.open
    ensures var c := Context(issue, Some(AwaitingAnswering), false, false, false, false, false);
            && Assess(c, {DaemonAnomaly}, f) == Anomaly(PausedRunLabelMissing)
            && Assess(c, {DaemonAnomaly, AwaitingAnswer}, f) == Classification.AwaitingHuman
  {
    var run := Some(AwaitingAnswering);
    assert AwaitingAnswer !in Effective(run, {DaemonAnomaly});
    assert AwaitingAnswer in Effective(run, {DaemonAnomaly, AwaitingAnswer});
  }

  lemma SameVerdict(c: Context, base: set<Label>, shown: set<Label>, f: nat -> bool)
    requires c.run.Some? && base == NonEffects(base) && NonEffects(shown) == base && !MarkerMasksPause(c, base)
    ensures Assess(c, shown, f) == Assess(c, base, f)
  {
    if DaemonAnomaly !in base {
      VerdictIgnoresEffects(c, base, shown, f);
    } else {
      assert Ready in shown <==> Ready in NonEffects(shown);
      assert Ready !in Effective(c.run, shown) <==> Ready !in base;
      var a, b := Effective(c.run, shown), Effective(c.run, base);
      NotReadyNotEligible(c.issue, a, f);
      NotReadyNotEligible(c.issue, b, f);
    }
  }

  lemma NotReadyNotEligible(issue: Issue, labels: set<Label>, f: nat -> bool)
    ensures Ready !in labels ==> !GateEligible(issue.(labels := labels), f)
  {
  }

  // ---------------------------------------------------------------- the whole surface pass

  /** Some label other than the marker keeps the issue in front of a human. */
  ghost predicate OtherwiseVisible(labels: set<Label>) {
    exists l | l in labels :: IsPaused(l) && l != DaemonAnomaly
  }

  ghost predicate ShouldClear(v: Classification, labels: set<Label>) {
    !v.AwaitingHuman? || OtherwiseVisible(labels)
  }

  /** The marker after a pass: added on an anomaly, cleared once the issue has moved on. */
  ghost function Marked(labels: set<Label>, effective: set<Label>, v: Classification, failing: set<Label>): set<Label> {
    if DaemonAnomaly in failing then labels
    else if v.Anomaly? then (if DaemonAnomaly in effective then labels else labels + {DaemonAnomaly})
    else if DaemonAnomaly in effective && ShouldClear(v, effective) then labels - {DaemonAnomaly}
    else labels
  }

  /** A paused run whose answer was posted but never re-armed. */
  predicate Stranded(c: Context) { IsPausedRun(c.run) && c.answered }

  /** Re-issuing the re-arm a rate limit swallowed. */
  function Rearmed(c: Context, labels: set<Label>, failing: set<Label>): set<Label> {
    if Stranded(c) && Ready !in failing then labels + {Ready} else labels
  }

  /** What the pass has written before it classifies: the re-arm, then the state label. */
  function Delivered(c: Context, labels: set<Label>, failing: set<Label>): set<Label> {
    if c.run.None? then labels
    else Written(Rearmed(c, labels, failing), labels, Desired(c.run, labels), failing)
  }

  /** The master queue as the pass meets it, and whether this tick's sweep already killed the issue's session. */
  datatype Master = Unwired | Wired(terminated: bool, reply: Reply)

  /** The pass asks the master to take the anomaly. */
  predicate Asks(run: Option<Status>, v: Classification, m: Master) {
    && v.Anomaly? && m.Wired? && run.Some? && AnomalyEnqueuesMaster(v.reason, true)
    && !(v.reason.RunWedgedPastLifetime? && m.terminated)
    && !run.value.InMasterTriage?
  }

  /** The master has it, so it is not marked. */
  predicate Escalates(run: Option<Status>, v: Classification, m: Master) { Asks(run, v, m) && !m.reply.Refused? }

  function Asked(labels: set<Label>, run: Option<Status>, v: Classification, m: Master): set<Label> {
    if Asks(run, v, m) && (m.reply.Queued? || m.reply == Refused(true)) then Promoted(labels) else labels
  }

  /** The row's status after the pass: a new request parks the run on the master queue. */
  function StatusAfter(run: Option<Status>, v: Classification, m: Master): Option<Status> {
    if Asks(run, v, m) && m.reply.Queued? then Some(InMasterTriage) else run
  }

  /** One surface pass: re-arm, state label, verdict, then the master's queue or the marker. */
  ghost function Surface(c: Context, labels: set<Label>, f: nat -> bool, failing: set<Label>, m: Master): set<Label> {
    var v := Assess(c, labels, f);
    var asked := Asked(Delivered(c, labels, failing), c.run, v, m);
    if Escalates(c.run, v, m) then asked else Marked(asked, Effective(c.run, labels), v, failing)
  }

  /** The pass as it runs: what it leaves on GitHub and in the row, and a verdict no failed write can change. */
  method SurfaceOne(github: IssueLabels, c: Context, satisfied: nat -> bool, failing: set<Label>, m: Master)
    returns (v: Classification, run: Option<Status>)
    modifies github
    ensures v == Assess(c, old(github.labels), satisfied)
    ensures run == StatusAfter(c.run, v, m)
    ensures github.labels == Surface(c, old(github.labels), satisfied, failing, m)
  {
    var observed := github.labels;
    var effective := observed;
    if Stranded(c) {
      github.AddLabel(Ready, failing);
    }
    if c.run.Some? {
      var desired := Desired(c.run, observed);
      github.ReconcileStateLabel(observed, desired, failing);
      effective := Overlay(observed, desired);
    }
    v := Classify(SnapshotOf(c, effective, satisfied));
    run := c.run;
    var taken := false;
    if Asks(c.run, v, m) {
      run, taken := github.Escalate(c.run, m.reply);
    }
    if taken {
      return;
    }
    if v.Anomaly? {
      if DaemonAnomaly !in effective {
        github.AddLabel(DaemonAnomaly, failing);
      }
    } else if DaemonAnomaly in effective && (!v.AwaitingHuman? || exists l | l in effective :: IsPaused(l) && l != DaemonAnomaly) {
      github.RemoveLabel(DaemonAnomaly, failing);
    }
  }

  /** With no failed write the pass delivers exactly the labels it classified. */
  lemma SurfaceClean(c: Context, labels: set<Label>, f: nat -> bool, m: Master)
    ensures var v := Assess(c, labels, f);
            var shown := Asked(Effective(c.run, labels) + if Stranded(c) then {Ready} else {}, c.run, v, m);
            Surface(c, labels, f, {}, m) ==
            if Escalates(c.run, v, m) then shown else Marked(shown, Effective(c.run, labels), v, {})
  {
    if c.run.Some? {
      CleanPassDelivers(c.run, labels);
      if Stranded(c) {
        assert Delivered(c, labels, {}) == Effective(c.run, labels) + {Ready};
      }
    }
  }

  /** The state label was held back by the marker, and this pass clears the marker. */
  ghost predicate Unmasks(c: Context, labels: set<Label>, f: nat -> bool) {
    && Masked(c.run, labels)
    && !Assess(c, labels, f).Anomaly? && ShouldClear(Assess(c, labels, f), Effective(c.run, labels))
  }

  /**
   * Every anomaly is with the master or visible after the pass, and a marker that stays on anything
   * else is its only surface; one handed to the master is not marked as well.
   */
  lemma SurfaceMarksAnomalies(c: Context, labels: set<Label>, f: nat -> bool, m: Master)
    ensures var after, v := Surface(c, labels, f, {}, m), Assess(c, labels, f);
            && (v.Anomaly? ==> Escalates(c.run, v, m) || DaemonAnomaly in after)
            && (Escalates(c.run, v, m) ==> (DaemonAnomaly in after <==> DaemonAnomaly in labels))
            && (DaemonAnomaly in after ==> v.Anomaly? || (v.AwaitingHuman? && DaemonAnomaly in labels && !OtherwiseVisible(after)))
  {
    SurfaceClean(c, labels, f, m);
  }

  /** The faults of one issue that has a run and a branch behind it. */
  const ISSUE_SCOPED: set<AnomalyReason> := {
    RunWedgedPastLifetime, RunningRowNotInFlight, NonTerminalRunOnClosedIssue,
    PausedRunUnresumable, PausedRunLabelMissing, PausedLabelMissingRun
  }

  /**
   * Which anomalies the master is given: those of one issue's run, unless its session was just
   * killed or it is on the queue already. A request that lands parks the row on the queue, one the
   * master takes or has spares the marker, and every other anomaly is marked.
   */
  lemma HandedOverExactly(c: Context, labels: set<Label>, f: nat -> bool, m: Master)
    ensures var v, after := Assess(c, labels, f), Surface(c, labels, f, {}, m);
            var asked := && v.Anomaly? && v.reason in ISSUE_SCOPED && m.Wired? && c.run !in {None, Some(InMasterTriage)}
                         && (v.reason == RunWedgedPastLifetime ==> !m.terminated);
            && StatusAfter(c.run, v, m) == (if asked && m.reply.Queued? then Some(InMasterTriage) else c.run)
            && (asked && !m.reply.Refused? ==> (DaemonAnomaly in after <==> DaemonAnomaly in labels))
            && (v.Anomaly? && !(asked && !m.reply.Refused?) ==> DaemonAnomaly in after)
  {
    SurfaceClean(c, labels, f, m);
  }

  /** A request that lands, or fails past its promotion, makes the issue a first-tier one; no other pass moves a foreign label. */
  lemma PromotedExactly(c: Context, labels: set<Label>, f: nat -> bool, m: Master)
    ensures var after := Surface(c, labels, f, {}, m);
            forall l: Label | l.Other? ::
              if Asks(c.run, Assess(c, labels, f), m) && m.reply in {Queued, Refused(true)} && l in {TIER_1, TIER_2, TIER_3}
              then l in after <==> l == TIER_1
              else l in after <==> l in labels
  {
    SurfaceClean(c, labels, f, m);
    EffectsListed();
  }

  /** The labels agree on everything but the marker and the names outside the vocabulary. */
  ghost predicate SameState(a: set<Label>, b: set<Label>) {
    forall l: Label | !l.DaemonAnomaly? && !l.Other? :: l in a <==> l in b
  }

  /** The gate the pass uses sees neither the marker nor an unknown name. */
  lemma GateReadsState(issue: Issue, a: set<Label>, b: set<Label>, f: nat -> bool)
    requires SameState(a, b)
    ensures GateEligible(issue.(labels := a), f) == GateEligible(issue.(labels := b), f)
  {
    var x, y := issue.(labels := a - {DaemonAnomaly}), issue.(labels := b - {DaemonAnomaly});
    assert forall l: Label | !l.Other? :: l in x.labels <==> l in y.labels;
    SameMode(x.labels, y.labels);
    assert Blockers(x, f) == Blockers(y, f);
  }

  lemma SameMode(a: set<Label>, b: set<Label>)
    requires forall l: Label | !l.Other? :: l in a <==> l in b
    ensures ReadMode(a) == ReadMode(b)
    ensures (exists l | l in a :: IsPaused(l)) <==> exists l | l in b :: IsPaused(l)
    ensures (exists l | l in a :: l.Log?) <==> exists l | l in b :: l.Log?
  {
  }

  /** What is held, in flight or an anomaly is neither eligible nor admitted, whatever the pass leaves on it. */
  lemma HeldIsNotAdmitted(c: Context, world: World, labels: set<Label>, after: set<Label>, f: nat -> bool)
    requires c.issue.open && c.run == world.run(c.issue.number) && c.inFlight == world.inFlight(c.issue.number)
    requires c.inFlight || Holds(c.run)
    ensures Assess(c, labels, f) != EligibleIssue && !Judge(c.issue.(labels := after), world, f).Admit?
  {
  }

  /** What completeness calls eligible is what admission takes on the next poll, and nothing else is. */
  lemma EligibleIsAdmittedNext(c: Context, world: World, labels: set<Label>, f: nat -> bool, m: Master)
    requires c.issue.open && c.run == world.run(c.issue.number) && c.inFlight == world.inFlight(c.issue.number)
    ensures Assess(c, labels, f) == EligibleIssue
            <==> Judge(c.issue.(labels := Surface(c, labels, f, {}, m)), world, f).Admit?
  {
    var eff, after := Effective(c.run, labels), Surface(c, labels, f, {}, m);
    if c.inFlight || Holds(c.run) {
      HeldIsNotAdmitted(c, world, labels, after, f);
    } else {
      FreePass(c, labels, f, m);
      FreeIsEligible(c, labels, f);
      FreeIsAdmitted(c, world, after, f);
      if DaemonAnomaly !in after {
        GateReadsBare(c.issue, eff, f);
      } else {
        MarkedIsRejected(c.issue, after, f);
      }
    }
  }

  lemma FreeIsEligible(c: Context, labels: set<Label>, f: nat -> bool)
    requires c.issue.open && !c.inFlight && !Holds(c.run)
    ensures Assess(c, labels, f) == EligibleIssue <==> GateEligible(c.issue.(labels := Effective(c.run, labels)), f)
  {
  }

  lemma FreeIsAdmitted(c: Context, world: World, labels: set<Label>, f: nat -> bool)
    requires c.run == world.run(c.issue.number) && c.inFlight == world.inFlight(c.issue.number)
    requires !c.inFlight && !Holds(c.run)
    ensures Judge(c.issue.(labels := labels), world, f).Admit? <==> EvaluateGate(c.issue.(labels := labels), f).Eligible?
  {
  }

  /** On an issue nothing holds the pass moves the marker only. */
  lemma FreePass(c: Context, labels: set<Label>, f: nat -> bool, m: Master)
    requires c.issue.open && !c.inFlight && !Holds(c.run)
    ensures var eff, v := Effective(c.run, labels), Assess(c, labels, f);
            Surface(c, labels, f, {}, m) == Marked(eff, eff, v, {}) && !Escalates(c.run, v, m)
  {
    SurfaceClean(c, labels, f, m);
  }

  lemma GateReadsBare(issue: Issue, labels: set<Label>, f: nat -> bool)
    ensures GateEligible(issue.(labels := labels), f)
            == EvaluateGate(issue.(labels := labels - {DaemonAnomaly}), f).Eligible?
  {
    assert issue.(labels := labels).(labels := labels - {DaemonAnomaly}) == issue.(labels := labels - {DaemonAnomaly});
  }

  lemma MarkedIsRejected(issue: Issue, labels: set<Label>, f: nat -> bool)
    requires DaemonAnomaly in labels
    ensures !EvaluateGate(issue.(labels := labels), f).Eligible?
  {
    GateMeaning(issue.(labels := labels), f);
    assert IsPaused(DaemonAnomaly);
  }

  /** The marker holds the run's state label back. */
  predicate Masked(run: Option<Status>, labels: set<Label>) {
    && run.Some? && Ready !in labels && DaemonAnomaly in labels
    && EffectLabel(run.value).Some? && EffectLabel(run.value).value !in labels
  }

  // ---------------------------------------------------------------- pass after pass

  /** The state label after a pass that neither hid nor revealed one. */
  lemma EffectiveSettles(c: Context, labels: set<Label>, after: set<Label>)
    requires SameState(after, Effective(c.run, labels))
    requires Masked(c.run, labels) ==> DaemonAnomaly in after
    ensures Effective(c.run, after) == after
  {
    if c.run.Some? {
      DesiredIsStable(c.run, labels, {});
      CleanPassDelivers(c.run, labels);
      assert Ready in after <==> Ready in labels;
      assert Desired(c.run, after) == Desired(c.run, labels);
    }
  }

  lemma VerdictSettles(c: Context, labels: set<Label>, after: set<Label>, f: nat -> bool)
    requires SameState(after, Effective(c.run, labels)) && Effective(c.run, after) == after
    ensures Assess(c, after, f) == Assess(c, labels, f)
  {
    var eff := Effective(c.run, labels);
    GateReadsState(c.issue, after, eff, f);
    ClassifierReads(SnapshotOf(c, eff, f), after);
  }

  /** What a pass that unmasks, re-arms and queues nothing leaves: the state it classified, under a marker as it should be. */
  lemma OnePassLabels(c: Context, labels: set<Label>, f: nat -> bool, m: Master)
    requires !Stranded(c) && !Unmasks(c, labels, f) && StatusAfter(c.run, Assess(c, labels, f), m) == c.run
    ensures var eff, after, v := Effective(c.run, labels), Surface(c, labels, f, {}, m), Assess(c, labels, f);
            && SameState(after, eff) && (Masked(c.run, labels) ==> DaemonAnomaly in after)
            && Asked(after, c.run, v, m) == after
            && (Escalates(c.run, v, m) || Marked(after, after, v, {}) == after)
  {
    SurfaceClean(c, labels, f, m);
  }

  /** A pass that unmasks no state label, re-arms nothing and queues nothing new leaves nothing for the next one to do. */
  lemma OnePassSettles(c: Context, labels: set<Label>, f: nat -> bool, m: Master)
    requires !Stranded(c) && !Unmasks(c, labels, f) && StatusAfter(c.run, Assess(c, labels, f), m) == c.run
    ensures Surface(c, Surface(c, labels, f, {}, m), f, {}, m) == Surface(c, labels, f, {}, m)
    ensures Assess(c, Surface(c, labels, f, {}, m), f) == Assess(c, labels, f)
  {
    var after := Surface(c, labels, f, {}, m);
    OnePassLabels(c, labels, f, m);
    EffectiveSettles(c, labels, after);
    VerdictSettles(c, labels, after, f);
    SurfaceClean(c, after, f, m);
  }
}
