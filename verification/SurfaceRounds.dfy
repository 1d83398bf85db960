/** Surface passes in a row over one issue: when one of them is final, and that three always are. */
module SurfaceRounds {
  import opened Wrappers
  import opened Labels
  import opened Completeness
  import opened LabelOutbox

  /** What the passes over one issue change: its row's status and its labels. */
  datatype Row = Row(run: Option<Status>, labels: set<Label>)

  /** What the thread says of a pause: answered since its latest question, and answered to the question its context names. */
  datatype Thread = Thread(answered: bool, replayable: bool)

  /** A tick's facts: the scan of the pauses reads the row as it now is, and all else stands. */
  function Scanned(c: Context, t: Thread, row: Row): Context {
    var paused := IsPausedRun(row.run) && c.issue.open;
    c.(run := row.run,
       resumable := paused && Ready in row.labels && t.replayable,
       answered := paused && Ready !in row.labels && t.answered)
  }

  /** One clean pass: the row and labels it finds, and those it leaves. */
  ghost function Round(c: Context, t: Thread, f: nat -> bool, m: Master, row: Row): Row {
    var d := Scanned(c, t, row);
    Row(StatusAfter(row.run, Assess(d, row.labels, f), m), Surface(d, row.labels, f, {}, m))
  }

  ghost predicate Queues(c: Context, t: Thread, f: nat -> bool, m: Master, row: Row) {
    Asks(row.run, Assess(Scanned(c, t, row), row.labels, f), m) && m.reply.Queued?
  }

  /** An issue on the master queue is an anomaly all the same: its session overdue, or its queue without a route. */
  predicate Alarmed(c: Context) { if c.inFlight then c.wedged else !c.issue.open || c.masterUnroutable }

  /** When one clean pass leaves the next one nothing to do. */
  ghost predicate Final(c: Context, t: Thread, f: nat -> bool, m: Master, row: Row) {
    var d := Scanned(c, t, row);
    if Queues(c, t, f, m, row) then
      && Desired(row.run, row.labels).None?
      && (Ready in row.labels || DaemonAnomaly in row.labels)
      && (DaemonAnomaly in row.labels <==> Alarmed(c))
    else if Stranded(d) then Masked(row.run, row.labels) && (c.inFlight || !t.replayable)
    else !Unmasks(d, row.labels, f)
  }

  /** On the master queue a pass shows the queue's label and keeps the marker exactly while alarmed. */
  lemma QueuedPass(c: Context, t: Thread, f: nat -> bool, m: Master, labels: set<Label>)
    ensures var row := Row(Some(InMasterTriage), labels);
            var shown := Overlay(labels, Desired(row.run, labels));
            Round(c, t, f, m, row) == Row(row.run, if Alarmed(c) then shown + {DaemonAnomaly} else shown - {DaemonAnomaly})
  {
    var row := Row(Some(InMasterTriage), labels);
    SurfaceClean(Scanned(c, t, row), labels, f, m);
  }

  lemma QueueingPass(c: Context, t: Thread, f: nat -> bool, m: Master, row: Row)
    requires Queues(c, t, f, m, row)
    ensures row.run.Some? && !row.run.value.InMasterTriage?
    ensures var rearm := if Stranded(Scanned(c, t, row)) then {Ready} else {};
            Round(c, t, f, m, row) == Row(Some(InMasterTriage), Promoted(Effective(row.run, row.labels) + rearm))
  {
    SurfaceClean(Scanned(c, t, row), row.labels, f, m);
  }

  /** When the labels a queueing pass leaves already are what the next pass aims for. */
  lemma QueueingLabels(s: Status, labels: set<Label>, rearm: set<Label>, alarmed: bool)
    requires !s.InMasterTriage? && (rearm == {} || (rearm == {Ready} && Ready !in labels && EffectLabel(s).Some?))
    ensures var once := Promoted(Effective(Some(s), labels) + rearm);
            var shown := Overlay(once, Desired(Some(InMasterTriage), once));
            (if alarmed then shown + {DaemonAnomaly} else shown - {DaemonAnomaly}) == once <==>
              && Desired(Some(s), labels).None? && (Ready in labels || DaemonAnomaly in labels)
              && (DaemonAnomaly in labels <==> alarmed)
  {
    var once := Promoted(Effective(Some(s), labels) + rearm);
    var desired := Desired(Some(InMasterTriage), once);
    EffectsListed();
    assert DaemonAnomaly in once <==> DaemonAnomaly in labels;
    assert MasterTriage !in once;
    if Desired(Some(s), labels).Some? {
      assert Desired(Some(s), labels).value in once && desired != Desired(Some(s), labels);
    } else {
      assert forall l | l in once :: !IsEffect(l);
    }
  }

  lemma QueueingSettlesExactly(c: Context, t: Thread, f: nat -> bool, m: Master, row: Row)
    requires Queues(c, t, f, m, row)
    ensures Round(c, t, f, m, row).run == Some(InMasterTriage)
    ensures Round(c, t, f, m, Round(c, t, f, m, row)) == Round(c, t, f, m, row) <==> Final(c, t, f, m, row)
  {
    var rearm := if Stranded(Scanned(c, t, row)) then {Ready} else {};
    QueueingPass(c, t, f, m, row);
    QueuedPass(c, t, f, m, Round(c, t, f, m, row).labels);
    QueueingLabels(row.run.value, row.labels, rearm, Alarmed(c));
  }

  /** The pass that re-arms a pause: its label is shown exactly if it was not held back. */
  lemma ReArmingPass(c: Context, t: Thread, f: nat -> bool, m: Master, row: Row)
    requires Stranded(Scanned(c, t, row)) && !Queues(c, t, f, m, row)
    ensures var once := Round(c, t, f, m, row);
            && once.run == row.run && Ready in once.labels
            && (EffectLabel(row.run.value).value in once.labels <==> !Masked(row.run, row.labels))
            && (Masked(row.run, row.labels) ==> forall l | l in once.labels :: !IsEffect(l))
  {
    PassKeepsState(Scanned(c, t, row), row.labels, f, m);
    ReArmedState(row.run.value, row.labels);
    EffectsListed();
  }

  /** Past its classification a pass touches no label of the vocabulary but the marker. */
  lemma PassKeepsState(c: Context, labels: set<Label>, f: nat -> bool, m: Master)
    ensures SameState(Surface(c, labels, f, {}, m), Effective(c.run, labels) + if Stranded(c) then {Ready} else {})
  {
    SurfaceClean(c, labels, f, m);
  }

  lemma ReArmedState(s: Status, labels: set<Label>)
    requires EffectLabel(s).Some? && Ready !in labels
    ensures var shown := Effective(Some(s), labels) + {Ready};
            && (EffectLabel(s).value in shown <==> !Masked(Some(s), labels))
            && (Masked(Some(s), labels) ==> forall l | l in shown :: !IsEffect(l))
  {
    EffectsListed();
  }

  /** A pass over re-armed labels takes every state label off. */
  lemma ReArmedPass(c: Context, labels: set<Label>, f: nat -> bool, m: Master)
    requires c.run.Some? && Ready in labels
    ensures forall l | l in Surface(c, labels, f, {}, m) :: !IsEffect(l)
    ensures (forall l | l in labels :: !IsEffect(l)) ==> Effective(c.run, labels) == labels
  {
    SurfaceClean(c, labels, f, m);
  }

  /** The verdicts on a masked pause before and after its re-arm. */
  lemma MaskedVerdicts(c: Context, t: Thread, f: nat -> bool, row: Row, labels: set<Label>)
    requires Stranded(Scanned(c, t, row)) && Masked(row.run, row.labels)
    requires Ready in labels && forall l | l in labels :: !IsEffect(l)
    ensures var v, w := Assess(Scanned(c, t, row), row.labels, f), Assess(Scanned(c, t, Row(row.run, labels)), labels, f);
            if c.inFlight then w == v && v == if c.wedged then Anomaly(RunWedgedPastLifetime) else BeingWorked
            else v == Anomaly(PausedRunLabelMissing) && w == if t.replayable then BeingWorked else Anomaly(PausedRunUnresumable)
  {
    assert PauseLabel(row.run.value) !in Effective(row.run, row.labels);
  }

  lemma MaskedSettlesExactly(c: Context, t: Thread, f: nat -> bool, m: Master, row: Row)
    requires Stranded(Scanned(c, t, row)) && Masked(row.run, row.labels) && !Queues(c, t, f, m, row)
    ensures Round(c, t, f, m, Round(c, t, f, m, row)) == Round(c, t, f, m, row) <==> c.inFlight || !t.replayable
  {
    var once := Round(c, t, f, m, row);
    ReArmingPass(c, t, f, m, row);
    MaskedVerdicts(c, t, f, row, once.labels);
    ReArmedPass(Scanned(c, t, once), once.labels, f, m);
    SurfaceClean(Scanned(c, t, row), row.labels, f, m);
    SurfaceClean(Scanned(c, t, once), once.labels, f, m);
  }

  lemma StrandedSettlesExactly(c: Context, t: Thread, f: nat -> bool, m: Master, row: Row)
    requires Stranded(Scanned(c, t, row)) && !Queues(c, t, f, m, row)
    ensures Round(c, t, f, m, Round(c, t, f, m, row)) == Round(c, t, f, m, row) <==> Final(c, t, f, m, row)
  {
    if Masked(row.run, row.labels) {
      MaskedSettlesExactly(c, t, f, m, row);
    } else {
      var once := Round(c, t, f, m, row);
      EffectsListed();
      ReArmingPass(c, t, f, m, row);
      ReArmedPass(Scanned(c, t, once), once.labels, f, m);
    }
  }

  /** A clean pass is final exactly when `Final` says so, whether it queues the issue, re-arms it or neither. */
  lemma SettlesExactly(c: Context, t: Thread, f: nat -> bool, m: Master, row: Row)
    ensures Round(c, t, f, m, Round(c, t, f, m, row)) == Round(c, t, f, m, row) <==> Final(c, t, f, m, row)
  {
    var d, once := Scanned(c, t, row), Round(c, t, f, m, row);
    if Queues(c, t, f, m, row) {
      QueueingSettlesExactly(c, t, f, m, row);
    } else if Stranded(d) {
      StrandedSettlesExactly(c, t, f, m, row);
    } else {
      PlainPass(c, t, f, m, row);
      if Unmasks(d, row.labels, f) {
        UnmaskedShows(d, row.labels, f, m);
      } else {
        OnePassSettles(d, row.labels, f, m);
      }
    }
  }

  /** A pass that neither queues nor re-arms leaves the scan's reading as it was. */
  lemma PlainPass(c: Context, t: Thread, f: nat -> bool, m: Master, row: Row)
    requires !Queues(c, t, f, m, row) && !Stranded(Scanned(c, t, row))
    ensures var once := Round(c, t, f, m, row);
            once.run == row.run && Scanned(c, t, once) == Scanned(c, t, row)
  {
    SurfaceClean(Scanned(c, t, row), row.labels, f, m);
  }

  /** After a pass that unmasks a state label the next one adds it, and that is final. */
  lemma UnmaskedShows(c: Context, labels: set<Label>, f: nat -> bool, m: Master)
    requires !Stranded(c) && Unmasks(c, labels, f)
    ensures var once := Surface(c, labels, f, {}, m);
            var twice := Surface(c, once, f, {}, m);
            && twice == once + {EffectLabel(c.run.value).value} && twice != once
            && Surface(c, twice, f, {}, m) == twice && !Assess(c, once, f).Anomaly? && !Assess(c, twice, f).Anomaly?
  {
    var once := Surface(c, labels, f, {}, m);
    var own := EffectLabel(c.run.value).value;
    EffectsListed();
    SurfaceClean(c, labels, f, m);
    assert once == NonEffects(labels) - {DaemonAnomaly};
    assert Effective(c.run, once) == once + {own};
    SurfaceClean(c, once, f, m);
    UnmaskedVerdict(c, labels, once, f);
    OnePassSettles(c, once, f, m);
  }

  lemma UnmaskedVerdict(c: Context, labels: set<Label>, once: set<Label>, f: nat -> bool)
    requires Unmasks(c, labels, f) && once == NonEffects(labels) - {DaemonAnomaly}
    ensures !Assess(c, once, f).Anomaly?
  {
  }

  /** On the next pass nothing is queued anew and nothing re-armed. */
  ghost predicate Calm(c: Context, t: Thread, f: nat -> bool, m: Master, row: Row) {
    !Queues(c, t, f, m, row) && !Stranded(Scanned(c, t, row))
  }

  lemma CalmSettles(c: Context, t: Thread, f: nat -> bool, m: Master, row: Row)
    requires Calm(c, t, f, m, row)
    ensures var twice := Round(c, t, f, m, Round(c, t, f, m, row)); Round(c, t, f, m, twice) == twice
  {
    var d, once := Scanned(c, t, row), Round(c, t, f, m, row);
    PlainPass(c, t, f, m, row);
    if Unmasks(d, row.labels, f) {
      UnmaskedShows(d, row.labels, f, m);
      PlainPass(c, t, f, m, once);
    } else {
      OnePassSettles(d, row.labels, f, m);
    }
  }

  /** A re-armed issue is settled by one more pass, or queued by it and settled by the one after. */
  lemma ReArmedSettles(c: Context, t: Thread, f: nat -> bool, m: Master, row: Row)
    requires Ready in row.labels
    ensures var twice := Round(c, t, f, m, Round(c, t, f, m, row)); Round(c, t, f, m, twice) == twice
  {
    var once := Round(c, t, f, m, row);
    if Queues(c, t, f, m, row) {
      SurfaceClean(Scanned(c, t, row), row.labels, f, m);
      SettlesExactly(c, t, f, m, once);
    } else {
      CalmSettles(c, t, f, m, row);
    }
  }

  /** While the thread, the running sessions and the master's answers stand, three clean passes settle any issue. */
  lemma ThreePassesSettle(c: Context, t: Thread, f: nat -> bool, m: Master, row: Row)
    ensures var three := Round(c, t, f, m, Round(c, t, f, m, Round(c, t, f, m, row))); Round(c, t, f, m, three) == three
  {
    var once := Round(c, t, f, m, row);
    if Queues(c, t, f, m, row) {
      QueueingSettlesExactly(c, t, f, m, row);
      CalmSettles(c, t, f, m, once);
    } else if Stranded(Scanned(c, t, row)) {
      SurfaceClean(Scanned(c, t, row), row.labels, f, m);
      ReArmedSettles(c, t, f, m, once);
    } else {
      CalmSettles(c, t, f, m, row);
    }
  }

  /** The facts of an idle, open issue whose queue has a route. */
  function Quiet(issue: Issue, t: Thread, row: Row): Context {
    Scanned(Context(issue, row.run, false, false, false, false, false), t, row)
  }

  /** A run awaiting its merge under the marker: the first pass clears the marker, the second shows the label. */
  lemma SecondPassShowsTheLabel(issue: Issue, t: Thread, f: nat -> bool, m: Master)
    requires issue.open
    ensures var row := Row(Some(AwaitingMerging), {DaemonAnomaly});
            var c := Quiet(issue, t, row);
            && Round(c, t, f, m, row) == Row(row.run, {})
            && Round(c, t, f, m, Row(row.run, {})) == Row(row.run, {AwaitingMerge})
  {
    var row := Row(Some(AwaitingMerging), {DaemonAnomaly});
    var c := Quiet(issue, t, row);
    SurfaceClean(Scanned(c, t, row), row.labels, f, m);
    assert Effective(row.run, row.labels) == {DaemonAnomaly};
    SurfaceClean(Scanned(c, t, Row(row.run, {})), {}, f, m);
    assert Effective(row.run, {}) == {AwaitingMerge};
  }

  /** A session lost under the marker takes all three: the first queues it, the second clears the marker, the third shows the label. */
  lemma ThreePassesAreNeeded(issue: Issue, t: Thread, f: nat -> bool)
    requires issue.open
    ensures var m := Wired(false, Queued);
            var row, queued := Row(Some(Running), {DaemonAnomaly}), Some(InMasterTriage);
            var c := Quiet(issue, t, row);
            && Round(c, t, f, m, row) == Row(queued, {DaemonAnomaly, TIER_1})
            && Round(c, t, f, m, Row(queued, {DaemonAnomaly, TIER_1})) == Row(queued, {TIER_1})
            && Round(c, t, f, m, Row(queued, {TIER_1})) == Row(queued, {TIER_1, MasterTriage})
  {
    var m, row, queued := Wired(false, Queued), Row(Some(Running), {DaemonAnomaly}), Some(InMasterTriage);
    var c := Quiet(issue, t, row);
    LostIsQueued(c, t, f, row);
    QueueingPass(c, t, f, m, row);
    QueuedPass(c, t, f, m, {DaemonAnomaly, TIER_1});
    QueuedPass(c, t, f, m, {TIER_1});
    LabelsOnTheWay();
  }

  lemma LostIsQueued(c: Context, t: Thread, f: nat -> bool, row: Row)
    requires row.run == Some(Running) && c.issue.open && !c.inFlight
    ensures Queues(c, t, f, Wired(false, Queued), row) && !Stranded(Scanned(c, t, row))
  {
  }

  lemma LabelsOnTheWay()
    ensures Promoted(Effective(Some(Running), {DaemonAnomaly}) + {}) == {DaemonAnomaly, TIER_1}
    ensures Overlay({DaemonAnomaly, TIER_1}, Desired(Some(InMasterTriage), {DaemonAnomaly, TIER_1})) == {DaemonAnomaly, TIER_1}
    ensures Overlay({TIER_1}, Desired(Some(InMasterTriage), {TIER_1})) == {TIER_1, MasterTriage}
  {
  }

  /** An answer never re-armed: the first pass re-arms it beside its label, the second takes the label off. */
  lemma ReArmTakesTwoPasses(issue: Issue, f: nat -> bool, m: Master)
    requires issue.open
    ensures var t, row := Thread(true, true), Row(Some(AwaitingAnswering), {AwaitingAnswer});
            var c := Quiet(issue, t, row);
            && Round(c, t, f, m, row) == Row(row.run, {AwaitingAnswer, Ready, DaemonAnomaly})
            && Round(c, t, f, m, Row(row.run, {AwaitingAnswer, Ready, DaemonAnomaly})) == Row(row.run, {Ready})
  {
    var t, row := Thread(true, true), Row(Some(AwaitingAnswering), {AwaitingAnswer});
    var c := Quiet(issue, t, row);
    var rearmed := {AwaitingAnswer, Ready, DaemonAnomaly};
    SurfaceClean(Scanned(c, t, row), row.labels, f, m);
    assert Effective(row.run, row.labels) == {AwaitingAnswer};
    SurfaceClean(Scanned(c, t, Row(row.run, rearmed)), rearmed, f, m);
    assert Effective(row.run, rearmed) == {Ready, DaemonAnomaly};
  }
}
