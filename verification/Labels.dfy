/** The label vocabulary and the issue fields every decision reads. */
module Labels {
  import opened Wrappers

  /**
   * A GitHub label by the name it carries. `Log` is any name with the milestone-log prefix,
   * `Other` any name the vocabulary does not know.
   */
  datatype Label =
    | Ready | Afk | Hitl
    | ModeTdd | ModeInfra | ModeUi
    | AwaitingAnswer | ReviewMaxed | AgentStuck | DaemonAnomaly
    | AwaitingMerge | AwaitingCi | MasterTriage
    | Log(suffix: string)
    | Other(name: string)

  datatype Mode = Tdd | Infra | Ui

  /** An issue; `refs` and `crossRepo` are what parsing its "Blocked by" section yields. */
  datatype Issue = Issue(number: nat, open: bool, labels: set<Label>, createdAt: int, refs: seq<nat>, crossRepo: seq<string>)

  /** The labels that keep an issue out of admission whatever else it carries. */
  predicate IsPaused(l: Label) {
    l.AwaitingAnswer? || l.ReviewMaxed? || l.AgentStuck? || l.DaemonAnomaly?
    || l.AwaitingMerge? || l.AwaitingCi? || l.MasterTriage?
  }

  function ModeLabel(m: Mode): Label {
    match m
    case Tdd => ModeTdd
    case Infra => ModeInfra
    case Ui => ModeUi
  }

  /** The mode the labels declare; several resolve in vocabulary order. */
  function ReadMode(labels: set<Label>): (r: Option<Mode>)
    ensures r.None? ==> forall m: Mode :: ModeLabel(m) !in labels
    ensures r.Some? ==> ModeLabel(r.value) in labels
    ensures r == Some(Infra) ==> ModeTdd !in labels
    ensures r == Some(Ui) ==> ModeTdd !in labels && ModeInfra !in labels
  {
    if ModeTdd in labels then Some(Tdd)
    else if ModeInfra in labels then Some(Infra)
    else if ModeUi in labels then Some(Ui)
    else
      assert forall m: Mode :: ModeLabel(m) !in labels;
      None
  }

  /** A run row's lifecycle status; `Unknown` is any text the code does not know. */
  datatype Status =
    | Running | AwaitingAnswering | ReviewMaxedOut | AwaitingCiChecks | AwaitingMerging | InMasterTriage
    | Stuck | Merged | Closed | Unknown

  /** The statuses whose row no longer holds its issue. */
  predicate ReAdmittable(s: Status) { s.Stuck? || s.Merged? || s.Closed? }
}
