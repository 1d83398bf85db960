/** The total classifier of every open issue and run row. */
module Completeness {
  import opened Wrappers
  import opened Labels
  import opened Admission

  datatype IssueState = Opened | Shut | Gone

  datatype AnomalyReason =
    | RunWedgedPastLifetime | RunningRowNotInFlight | NonTerminalRunOnClosedIssue
    | PausedRunUnresumable | PausedRunLabelMissing | AnsweredPauseStranded
    | PausedLabelMissingRun | MasterRouteUnconfigured | Unclassified

  datatype Classification = EligibleIssue | BeingWorked | AwaitingHuman | Terminal | Anomaly(reason: AnomalyReason)

  /** Every fact the classifier reads, resolved by the caller. */
  datatype Snapshot = Snapshot(
    issueState: IssueState,
    labels: set<Label>,
    run: Option<Status>,
    inFlight: bool,
    wedged: bool,
    gateEligible: bool,
    resumable: bool,
    answered: bool,
    masterUnroutable: bool)

  /** The label a paused run must show. */
  function PauseLabel(s: Status): Label
    requires s.AwaitingAnswering? || s.ReviewMaxedOut?
  {
    if s.AwaitingAnswering? then AwaitingAnswer else ReviewMaxed
  }

  predicate IsPausedRun(run: Option<Status>) { run.Some? && (run.value.AwaitingAnswering? || run.value.ReviewMaxedOut?) }

  function ClassifyPaused(s: Snapshot): Classification
    requires IsPausedRun(s.run)
  {
    if !s.issueState.Opened? then Anomaly(NonTerminalRunOnClosedIssue)
    else if s.resumable then BeingWorked
    else if PauseLabel(s.run.value) in s.labels then
      if s.answered then Anomaly(AnsweredPauseStranded) else AwaitingHuman
    else Anomaly(if Ready in s.labels then PausedRunUnresumable else PausedRunLabelMissing)
  }

  /** No row, or a row that no longer holds its issue: the labels decide. */
  function ClassifyByLabels(s: Snapshot): Classification {
    if !s.issueState.Opened? then Terminal
    else if s.gateEligible then EligibleIssue
    else if AgentStuck in s.labels then AwaitingHuman
    else if AwaitingAnswer in s.labels || ReviewMaxed in s.labels then
      if s.run.None? then Anomaly(PausedLabelMissingRun) else AwaitingHuman
    else AwaitingHuman
  }

  function Classify(s: Snapshot): Classification {
    if s.inFlight then (if s.wedged then Anomaly(RunWedgedPastLifetime) else BeingWorked)
    else
      match s.run
      case None => ClassifyByLabels(s)
      case Some(Running) => Anomaly(if s.issueState.Opened? then RunningRowNotInFlight else NonTerminalRunOnClosedIssue)
      case Some(AwaitingAnswering) => ClassifyPaused(s)
      case Some(ReviewMaxedOut) => ClassifyPaused(s)
      case Some(AwaitingCiChecks) => if s.issueState.Opened? then BeingWorked else Anomaly(NonTerminalRunOnClosedIssue)
      case Some(AwaitingMerging) => if s.issueState.Opened? then BeingWorked else Anomaly(NonTerminalRunOnClosedIssue)
      case Some(InMasterTriage) =>
        if !s.issueState.Opened? then Anomaly(NonTerminalRunOnClosedIssue)
        else if s.masterUnroutable then Anomaly(MasterRouteUnconfigured)
        else BeingWorked
      case Some(Unknown) => Anomaly(Unclassified)
      case Some(_) => ClassifyByLabels(s)
  }

  /** Each anomaly names one contradiction and nothing else: what it says of the snapshot, both ways. */
  lemma AnomalyMeaning(s: Snapshot)
    ensures var c, open := Classify(s), s.issueState.Opened?;
            var parked := !s.inFlight && IsPausedRun(s.run) && open && !s.resumable;
            && (c == Anomaly(RunWedgedPastLifetime) <==> s.inFlight && s.wedged)
            && (c == Anomaly(RunningRowNotInFlight) <==> !s.inFlight && s.run == Some(Running) && open)
            && (c == Anomaly(NonTerminalRunOnClosedIssue) <==> !s.inFlight && !open && Holds(s.run) && !s.run.value.Unknown?)
            && (c == Anomaly(AnsweredPauseStranded) <==> parked && PauseLabel(s.run.value) in s.labels && s.answered)
            && (c == Anomaly(PausedRunUnresumable) <==> parked && PauseLabel(s.run.value) !in s.labels && Ready in s.labels)
            && (c == Anomaly(PausedRunLabelMissing) <==> parked && PauseLabel(s.run.value) !in s.labels && Ready !in s.labels)
            && (c == Anomaly(PausedLabelMissingRun) <==>
                !s.inFlight && s.run.None? && open && !s.gateEligible && AgentStuck !in s.labels
                && (AwaitingAnswer in s.labels || ReviewMaxed in s.labels))
            && (c == Anomaly(MasterRouteUnconfigured) <==> !s.inFlight && s.run == Some(InMasterTriage) && open && s.masterUnroutable)
            && (c == Anomaly(Unclassified) <==> !s.inFlight && s.run == Some(Unknown))
  {
  }

  /** The four sound classes, each both ways. */
  lemma ClassMeaning(s: Snapshot)
    ensures var c, open := Classify(s), s.issueState.Opened?;
            var free := !s.inFlight && !Holds(s.run) && open;
            var parked := !s.inFlight && IsPausedRun(s.run) && open;
            && (c == Terminal <==> !s.inFlight && !Holds(s.run) && !open)
            && (c == EligibleIssue <==> free && s.gateEligible)
            && (c == BeingWorked <==>
                  || (s.inFlight && !s.wedged)
                  || (parked && s.resumable)
                  || (!s.inFlight && open && (s.run == Some(AwaitingCiChecks) || s.run == Some(AwaitingMerging)))
                  || (!s.inFlight && open && s.run == Some(InMasterTriage) && !s.masterUnroutable))
            && (c == AwaitingHuman <==>
                  || (parked && !s.resumable && !s.answered
                      && (if s.run == Some(ReviewMaxedOut) then ReviewMaxed else AwaitingAnswer) in s.labels)
                  || (free && !s.gateEligible
                      && (s.run.Some? || AgentStuck in s.labels || (AwaitingAnswer !in s.labels && ReviewMaxed !in s.labels))))
  {
  }

  /** Whether an anomaly is handed to a master session. */
  predicate AnomalyEnqueuesMaster(reason: AnomalyReason, hasContext: bool) {
    hasContext && !reason.MasterRouteUnconfigured? && !reason.Unclassified? && !reason.AnsweredPauseStranded?
  }

  /** The gate verdict the completeness pass uses: its own marker does not count against the issue. */
  function GateEligible(issue: Issue, satisfied: nat -> bool): bool {
    EvaluateGate(issue.(labels := issue.labels - {DaemonAnomaly}), satisfied).Eligible?
  }

  /** `s` records this open issue as the admission pass sees it. */
  ghost predicate Records(s: Snapshot, issue: Issue, world: World, satisfied: nat -> bool) {
    && issue.open && s.issueState.Opened? && s.labels == issue.labels
    && s.run == world.run(issue.number) && s.inFlight == world.inFlight(issue.number)
    && s.gateEligible == GateEligible(issue, satisfied)
  }

  /** Completeness and admission never disagree on an issue the daemon has not marked: eligible means admitted. */
  lemma EligibleMeansAdmitted(s: Snapshot, issue: Issue, world: World, f: nat -> bool)
    requires Records(s, issue, world, f) && DaemonAnomaly !in issue.labels
    ensures Classify(s) == EligibleIssue <==> Judge(issue, world, f).Admit?
  {
    assert issue.labels - {DaemonAnomaly} == issue.labels;
    assert issue.(labels := issue.labels - {DaemonAnomaly}) == issue;
  }

  /** No open issue is silently lost: what is not admitted is worked on, waiting for a human, or surfaced. */
  lemma NothingIsSilent(s: Snapshot, issue: Issue, world: World, f: nat -> bool)
    requires Records(s, issue, world, f) && !Judge(issue, world, f).Admit? && DaemonAnomaly !in issue.labels
    ensures Classify(s).BeingWorked? || Classify(s).AwaitingHuman? || Classify(s).Anomaly?
    ensures Classify(s).BeingWorked? ==>
              world.inFlight(issue.number)
              || (Holds(s.run) && !s.run.value.Running? && (IsPausedRun(s.run) ==> s.resumable))
    ensures Classify(s).AwaitingHuman? ==>
              (IsPausedRun(s.run) && PauseLabel(s.run.value) in issue.labels) || !Holds(s.run)
  {
    EligibleMeansAdmitted(s, issue, world, f);
  }

  /** An unroutable master queue is never handed to the master, and an idle routable one is no anomaly. */
  lemma MasterNeverEscalatesItself(s: Snapshot)
    requires s.run == Some(InMasterTriage) && s.issueState.Opened? && !s.inFlight
    ensures Classify(s).Anomaly? <==> s.masterUnroutable
    ensures Classify(s).Anomaly? ==> !AnomalyEnqueuesMaster(Classify(s).reason, true)
  {
  }

  /** Of the labels the classifier itself reads only four. */
  lemma ClassifierReads(s: Snapshot, labels: set<Label>)
    requires forall l: Label | l.Ready? || l.AgentStuck? || l.AwaitingAnswer? || l.ReviewMaxed? :: l in labels <==> l in s.labels
    ensures Classify(s.(labels := labels)) == Classify(s)
  {
  }
}
