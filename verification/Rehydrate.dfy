/** Rebuilding missing run rows from open pull requests, labels and issue comments after a lost store. */
module Rehydrate {
  import opened Wrappers
  import opened Labels
  import opened Admission
  import opened Completeness
  import opened LabelOutbox

  // ---------------------------------------------------------------- GitHub

  /** What a comment parses as: a question with the review phase it was asked in, a master request, or neither. */
  datatype Body = Question(phase: Option<nat>) | MasterRequest(signature: string) | Plain

  datatype Comment = Comment(id: int, body: Body)

  datatype Marker = Marker(issue: nat, branch: string)

  datatype PullRequest = PullRequest(number: nat, open: bool, marker: Option<Marker>)

  datatype GitHub = GitHub(prs: seq<PullRequest>, issues: map<nat, Issue>, threads: map<nat, seq<Comment>>)

  function Thread(g: GitHub, n: nat): seq<Comment> { if n in g.threads then g.threads[n] else [] }

  /** The last question of a thread. */
  function LatestQuestion(thread: seq<Comment>): (r: Option<nat>)
    ensures r.Some? ==> r.value < |thread| && thread[r.value].body.Question?
    ensures forall k | (if r.Some? then r.value else -1) < k < |thread| :: !thread[k].body.Question?
  {
    if thread == [] then None
    else
      var last := |thread| - 1;
      if thread[last].body.Question? then Some(last) else LatestQuestion(thread[..last])
  }

  method FindLatestQuestion(thread: seq<Comment>) returns (r: Option<nat>)
    ensures r == LatestQuestion(thread)
  {
    r := None;
    for i := 0 to |thread|
      invariant r == LatestQuestion(thread[..i])
    {
      assert thread[..i + 1][..i] == thread[..i];
      if thread[i].body.Question? {
        r := Some(i);
      }
    }
    assert thread[..|thread|] == thread;
  }

  predicate IsRequestBefore(c: Comment, bound: Option<int>) {
    c.body.MasterRequest? && (bound.Some? ==> c.id < bound.value)
  }

  /** The last master request of a thread, or the last one older than a comment. */
  function LatestRequest(thread: seq<Comment>, bound: Option<int>): (r: Option<string>)
    ensures r.None? <==> forall c | c in thread :: !IsRequestBefore(c, bound)
  {
    if thread == [] then None
    else
      var last := |thread| - 1;
      assert thread == thread[..last] + [thread[last]];
      if IsRequestBefore(thread[last], bound) then Some(thread[last].body.signature)
      else LatestRequest(thread[..last], bound)
  }

  /** The signature is that of the last such request. */
  lemma {:induction false} RequestIsLast(thread: seq<Comment>, bound: Option<int>)
    requires LatestRequest(thread, bound).Some?
    ensures exists i | 0 <= i < |thread| ::
              && IsRequestBefore(thread[i], bound) && thread[i].body == MasterRequest(LatestRequest(thread, bound).value)
              && forall k | i < k < |thread| :: !IsRequestBefore(thread[k], bound)
  {
    var last := |thread| - 1;
    if IsRequestBefore(thread[last], bound) {
      assert thread[last].body == MasterRequest(thread[last].body.signature);
    } else {
      RequestIsLast(thread[..last], bound);
      var i :| 0 <= i < last && IsRequestBefore(thread[..last][i], bound)
               && thread[..last][i].body == MasterRequest(LatestRequest(thread, bound).value)
               && forall k | i < k < last :: !IsRequestBefore(thread[..last][k], bound);
      assert forall k | 0 <= k < last :: thread[..last][k] == thread[k];
    }
  }

  method LatestMasterRequestBefore(thread: seq<Comment>, bound: Option<int>) returns (r: Option<string>)
    ensures r == LatestRequest(thread, bound)
  {
    assert thread[..|thread|] == thread;
    for i := |thread| downto 0
      invariant LatestRequest(thread, bound) == LatestRequest(thread[..i], bound)
    {
      assert thread[..i + 1][..i] == thread[..i];
      if IsRequestBefore(thread[i], bound) {
        return Some(thread[i].body.signature);
      }
    }
    r := None;
  }

  // ---------------------------------------------------------------- the store

  /** The facts rehydration appends to an issue's stream. */
  datatype Fact =
    | Escalated(comment: int) | ReviewMaxedFact(phase: nat) | ReviewPassed | CiAwaited
    | MasterTriageRequested(signature: string) | MasterInterventionStarted(signature: string)
    | MasterHumanQuestionRequested

  /** One step of the status projection: two facts are provenance only. */
  function Evolve(status: Option<Status>, fact: Fact): Option<Status> {
    match fact
    case Escalated(_) => Some(AwaitingAnswering)
    case ReviewMaxedFact(_) => Some(ReviewMaxedOut)
    case ReviewPassed => Some(AwaitingMerging)
    case CiAwaited => Some(AwaitingCiChecks)
    case MasterTriageRequested(_) => Some(InMasterTriage)
    case MasterInterventionStarted(_) => Some(InMasterTriage)
    case MasterHumanQuestionRequested => status
  }

  function Fold(facts: seq<Fact>): Option<Status> {
    if facts == [] then None else Evolve(Fold(facts[..|facts| - 1]), facts[|facts| - 1])
  }

  /** What a resumed run re-enters with. */
  datatype Resume = Resume(phase: Option<nat>, comment: int)

  datatype Row = Row(mode: Mode, branch: string, pr: nat, resume: Option<Resume>)

  datatype Contents = Contents(rows: map<nat, Row>, facts: map<nat, seq<Fact>>, rebuilt: seq<nat>)

  function FactsOf(s: Contents, n: nat): seq<Fact> { if n in s.facts then s.facts[n] else [] }

  /** The status a row reads as: an issue whose stream says nothing is running. */
  function StatusOf(s: Contents, n: nat): Option<Status> {
    if n !in s.rows then None
    else match Fold(FactsOf(s, n)) case Some(status) => Some(status) case None => Some(Running)
  }

  // ---------------------------------------------------------------- reconstruction

  datatype Paused = Paused(status: Status, comment: int, phase: Option<nat>, request: Option<string>)

  /** The pause an issue's labels and thread tell of, if they do. */
  function ReconstructPaused(labels: set<Label>, thread: seq<Comment>): Option<Paused> {
    var maxed, asked := ReviewMaxed in labels, AwaitingAnswer in labels;
    if !maxed && !asked && Ready !in labels then None
    else
      match LatestQuestion(thread)
      case None => None
      case Some(q) =>
        var c := thread[q];
        Some(Paused(if maxed then ReviewMaxedOut else AwaitingAnswering, c.id, c.body.phase,
                    if maxed then None else LatestRequest(thread, Some(c.id))))
  }

  function ResumePayload(p: Paused): Resume {
    Resume(if p.status.ReviewMaxedOut? then Some(match p.phase case Some(n) => n case None => 0) else p.phase, p.comment)
  }

  function PausedFacts(p: Paused): seq<Fact> {
    match p.request
    case Some(signature) => [MasterInterventionStarted(signature), MasterHumanQuestionRequested, Escalated(p.comment)]
    case None =>
      if p.status.ReviewMaxedOut?
      then [Escalated(p.comment), ReviewMaxedFact(match p.phase case Some(n) => n case None => 1)]
      else [Escalated(p.comment)]
  }

  /** The facts and resume context that stand for what GitHub shows, furthest-along state first. */
  function Reconstruct(labels: set<Label>, thread: seq<Comment>): (seq<Fact>, Option<Resume>) {
    match ReconstructPaused(labels, thread)
    case Some(p) => (PausedFacts(p), Some(ResumePayload(p)))
    case None =>
      if AwaitingMerge in labels then ([ReviewPassed], None)
      else if AwaitingCi in labels then ([CiAwaited], None)
      else if MasterTriage in labels then
        match LatestRequest(thread, None)
        case Some(signature) => ([MasterTriageRequested(signature)], None)
        case None => ([], None)
      else ([], None)
  }

  /** The pull requests rehydration acts on: open, marked, for an open issue that is not terminally stuck. */
  predicate Rebuildable(g: GitHub, pr: PullRequest) {
    && pr.open && pr.marker.Some? && pr.marker.value.issue in g.issues
    && g.issues[pr.marker.value.issue].open && AgentStuck !in g.issues[pr.marker.value.issue].labels
  }

  function ModeOf(labels: set<Label>): Mode { match ReadMode(labels) case Some(m) => m case None => Tdd }

  /** A stream after more facts; a stream nothing is appended to is not created. */
  function Appended(facts: map<nat, seq<Fact>>, n: nat, added: seq<Fact>): map<nat, seq<Fact>> {
    if added == [] then facts else facts[n := (if n in facts then facts[n] else []) + added]
  }

  function Step(g: GitHub, s: Contents, pr: PullRequest): Contents {
    if !Rebuildable(g, pr) || pr.marker.value.issue in s.rows then s
    else
      var n, branch := pr.marker.value.issue, pr.marker.value.branch;
      var labels := g.issues[n].labels;
      var plan := Reconstruct(labels, Thread(g, n));
      Contents(s.rows[n := Row(ModeOf(labels), branch, pr.number, plan.1)],
               Appended(s.facts, n, plan.0),
               s.rebuilt + [n])
  }

  function Rehydrated(g: GitHub, s: Contents, prs: seq<PullRequest>): Contents {
    if prs == [] then s else Step(g, Rehydrated(g, s, prs[..|prs| - 1]), prs[|prs| - 1])
  }

  lemma AppendedOneMore(facts: map<nat, seq<Fact>>, n: nat, added: seq<Fact>, i: nat)
    requires i < |added|
    ensures Appended(Appended(facts, n, added[..i]), n, [added[i]]) == Appended(facts, n, added[..i + 1])
  {
    var before := if n in facts then facts[n] else [];
    assert added[..i + 1] == added[..i] + [added[i]];
    assert before + added[..i] + [added[i]] == before + added[..i + 1];
    assert i == 0 ==> before + [added[0]] == before + added[..1];
    assert facts[n := before + added[..i]][n := before + added[..i + 1]] == facts[n := before + added[..i + 1]];
  }

  lemma {:induction false} RowsSurvive(g: GitHub, s: Contents, prs: seq<PullRequest>)
    ensures var t := Rehydrated(g, s, prs);
            forall n | n in s.rows :: n in t.rows && t.rows[n] == s.rows[n] && FactsOf(t, n) == FactsOf(s, n)
  {
    if prs != [] {
      RowsSurvive(g, s, prs[..|prs| - 1]);
    }
  }

  /** Every rebuilt issue was missing before, gets one row, and is reported once. */
  lemma {:induction false} OneRowEach(g: GitHub, s: Contents, prs: seq<PullRequest>)
    requires s.rebuilt == []
    ensures var t := Rehydrated(g, s, prs);
            && (forall n :: n in t.rows <==> n in s.rows || n in t.rebuilt)
            && (forall n | n in t.rebuilt :: n !in s.rows)
            && (forall i, j | 0 <= i < j < |t.rebuilt| :: t.rebuilt[i] != t.rebuilt[j])
  {
    if prs != [] {
      OneRowEach(g, s, prs[..|prs| - 1]);
      var u, pr := Rehydrated(g, s, prs[..|prs| - 1]), prs[|prs| - 1];
      if Rebuildable(g, pr) && pr.marker.value.issue !in u.rows {
        var n := pr.marker.value.issue;
        assert Step(g, u, pr).rebuilt == u.rebuilt + [n];
        assert forall m :: m in u.rebuilt + [n] <==> m in u.rebuilt || m == n;
      }
    }
  }

  /** After a rehydration every pull request it could act on has its row. */
  lemma {:induction false} AllRebuilt(g: GitHub, s: Contents, prs: seq<PullRequest>, pr: PullRequest)
    requires pr in prs && Rebuildable(g, pr)
    ensures pr.marker.value.issue in Rehydrated(g, s, prs).rows
  {
    var front, last := prs[..|prs| - 1], prs[|prs| - 1];
    if pr != last {
      assert prs == front + [last];
      AllRebuilt(g, s, front, pr);
    }
  }

  lemma {:induction false} NothingLeftToDo(g: GitHub, s: Contents, prs: seq<PullRequest>)
    requires forall pr | pr in prs && Rebuildable(g, pr) :: pr.marker.value.issue in s.rows
    ensures Rehydrated(g, s, prs) == s
  {
    if prs != [] {
      NothingLeftToDo(g, s, prs[..|prs| - 1]);
    }
  }

  /** A second rehydration of the same GitHub state rebuilds nothing and writes nothing. */
  lemma RehydrateOnce(g: GitHub, s: Contents)
    ensures var t := Rehydrated(g, s, g.prs).(rebuilt := []);
            Rehydrated(g, t, g.prs) == t
  {
    var t := Rehydrated(g, s, g.prs).(rebuilt := []);
    forall pr | pr in g.prs && Rebuildable(g, pr)
      ensures pr.marker.value.issue in t.rows
    {
      AllRebuilt(g, s, g.prs, pr);
    }
    NothingLeftToDo(g, t, g.prs);
  }

  /** The first pull request that rebuilds an issue decides its facts, and no later one adds to them. */
  lemma {:induction false} RebuiltFromGitHub(g: GitHub, s: Contents, prs: seq<PullRequest>, n: nat)
    requires n !in s.rows && FactsOf(s, n) == []
    ensures var t := Rehydrated(g, s, prs);
            n in t.rows ==>
              n in g.issues && g.issues[n].open && AgentStuck !in g.issues[n].labels
              && FactsOf(t, n) == Reconstruct(g.issues[n].labels, Thread(g, n)).0
              && t.rows[n].resume == Reconstruct(g.issues[n].labels, Thread(g, n)).1
    ensures n !in Rehydrated(g, s, prs).rows ==> FactsOf(Rehydrated(g, s, prs), n) == []
  {
    if prs != [] {
      RebuiltFromGitHub(g, s, prs[..|prs| - 1], n);
    }
  }

  /** The pull request acts for this issue. */
  predicate ActsFor(g: GitHub, pr: PullRequest, n: nat) {
    && pr.open && pr.marker.Some? && pr.marker.value.issue == n
    && n in g.issues && g.issues[n].open && AgentStuck !in g.issues[n].labels
  }

  /** A rebuilt row is the first acting pull request's: its branch and number, and the mode the issue's labels declare. */
  lemma {:induction false} RowsAreTheirs(g: GitHub, s: Contents, prs: seq<PullRequest>, n: nat)
    requires n !in s.rows
    ensures n in Rehydrated(g, s, prs).rows <==> exists i | 0 <= i < |prs| :: ActsFor(g, prs[i], n)
    ensures n in Rehydrated(g, s, prs).rows ==>
              var row := Rehydrated(g, s, prs).rows[n];
              && n in g.issues
              && (ReadMode(g.issues[n].labels) == Some(row.mode) || (ReadMode(g.issues[n].labels).None? && row.mode == Tdd))
              && exists i | 0 <= i < |prs| ::
                   && ActsFor(g, prs[i], n) && row.branch == prs[i].marker.value.branch && row.pr == prs[i].number
                   && forall j | 0 <= j < i :: !ActsFor(g, prs[j], n)
  {
    if prs != [] {
      var front, last := prs[..|prs| - 1], prs[|prs| - 1];
      RowsAreTheirs(g, s, front, n);
      assert forall i | 0 <= i < |front| :: front[i] == prs[i];
      assert prs[|prs| - 1] == last;
    }
  }

  class RunStore {
    var rows: map<nat, Row>
    var facts: map<nat, seq<Fact>>

    method Append(n: nat, fact: Fact)
      modifies this`facts
      ensures facts == Appended(old(facts), n, [fact])
    {
      facts := facts[n := (if n in facts then facts[n] else []) + [fact]];
    }

    /** Append the facts of one reconstruction in order. */
    method AppendAll(n: nat, added: seq<Fact>)
      modifies this`facts
      ensures facts == Appended(old(facts), n, added)
    {
      for i := 0 to |added|
        invariant facts == Appended(old(facts), n, added[..i])
      {
        Append(n, added[i]);
        AppendedOneMore(old(facts), n, added, i);
      }
      assert added[..|added|] == added;
    }

    /** Rebuild the missing rows, pull request by pull request; `rebuilt` lists the issues in order. */
    method RehydrateRuns(g: GitHub) returns (rebuilt: seq<nat>)
      modifies this
      ensures var s := Rehydrated(g, Contents(old(rows), old(facts), []), g.prs);
              rows == s.rows && facts == s.facts && rebuilt == s.rebuilt
    {
      rebuilt := [];
      ghost var s := Contents(rows, facts, []);
      for i := 0 to |g.prs|
        invariant s == Rehydrated(g, Contents(old(rows), old(facts), []), g.prs[..i])
        invariant rows == s.rows && facts == s.facts && rebuilt == s.rebuilt
      {
        var pr := g.prs[i];
        assert g.prs[..i + 1][..i] == g.prs[..i];
        s := Step(g, s, pr);
        if !Rebuildable(g, pr) || pr.marker.value.issue in rows {
          continue;
        }
        var n := pr.marker.value.issue;
        var labels := g.issues[n].labels;
        var plan := Reconstruct(labels, Thread(g, n));
        rows := rows[n := Row(ModeOf(labels), pr.marker.value.branch, pr.number, plan.1)];
        AppendAll(n, plan.0);
        rebuilt := rebuilt + [n];
      }
      assert g.prs[..|g.prs|] == g.prs;
    }
  }

  // ---------------------------------------------------------------- the rebuilt status is the one GitHub shows

  lemma FoldsTo(facts: seq<Fact>)
    ensures facts == [] ==> Fold(facts) == None
    ensures |facts| == 1 ==> Fold(facts) == Evolve(None, facts[0])
    ensures |facts| == 2 ==> Fold(facts) == Evolve(Evolve(None, facts[0]), facts[1])
    ensures |facts| == 3 ==> Fold(facts) == Evolve(Evolve(Evolve(None, facts[0]), facts[1]), facts[2])
  {
  }

  /** Labels as the outbox leaves them: one effect label, nothing that re-arms, marks or parks the run. */
  ghost predicate Converged(labels: set<Label>, shown: Label) {
    && shown in labels && IsEffect(shown) && (forall l | l in labels && IsEffect(l) :: l == shown)
    && Ready !in labels && DaemonAnomaly !in labels && AwaitingCi !in labels
  }

  ghost predicate HasQuestion(thread: seq<Comment>) { exists c | c in thread :: c.body.Question? }

  ghost predicate HasRequest(thread: seq<Comment>) { exists c | c in thread :: c.body.MasterRequest? }

  /** The comment that must have survived for the label to be rebuilt from. */
  ghost predicate Durable(shown: Label, thread: seq<Comment>) {
    && ((shown.AwaitingAnswer? || shown.ReviewMaxed?) ==> HasQuestion(thread))
    && (shown.MasterTriage? ==> HasRequest(thread))
  }

  lemma QuestionFound(thread: seq<Comment>)
    ensures LatestQuestion(thread).Some? <==> HasQuestion(thread)
  {
  }

  lemma RequestFound(thread: seq<Comment>)
    ensures LatestRequest(thread, None).Some? <==> HasRequest(thread)
  {
  }

  /** The status the reconstructed facts fold to is the one whose label is shown, if its comment survived; else running. */
  lemma ReconstructsShown(labels: set<Label>, shown: Label, thread: seq<Comment>)
    requires Converged(labels, shown) && !shown.AgentStuck?
    ensures var status := Fold(Reconstruct(labels, thread).0);
            if Durable(shown, thread) then status.Some? && EffectLabel(status.value) == Some(shown) else status == None
  {
    QuestionFound(thread);
    RequestFound(thread);
    FoldsTo(Reconstruct(labels, thread).0);
  }

  /**
   * Crash recovery is a fixpoint of the label outbox: on converged labels, rehydrating an empty
   * store rebuilds a status for which the next label pass writes nothing exactly when the comment
   * the label rests on survived.
   */
  lemma RecoveryIsFixpoint(g: GitHub, n: nat, shown: Label)
    requires n in g.issues && Converged(g.issues[n].labels, shown) && !shown.AgentStuck?
    requires exists pr | pr in g.prs && Rebuildable(g, pr) :: pr.marker.value.issue == n
    ensures var t, labels := Rehydrated(g, Contents(map[], map[], []), g.prs), g.issues[n].labels;
            && n in t.rows
            && (Pass(StatusOf(t, n), labels, {}) == labels <==> Durable(shown, Thread(g, n)))
  {
    var empty := Contents(map[], map[], []);
    var labels := g.issues[n].labels;
    var pr :| pr in g.prs && Rebuildable(g, pr) && pr.marker.value.issue == n;
    AllRebuilt(g, empty, g.prs, pr);
    RebuiltFromGitHub(g, empty, g.prs, n);
    ReconstructsShown(labels, shown, Thread(g, n));
    NothingToWrite(StatusOf(Rehydrated(g, empty, g.prs), n), labels, shown);
  }

  /** Converged labels are left alone by exactly the statuses whose label they show. */
  lemma NothingToWrite(run: Option<Status>, labels: set<Label>, shown: Label)
    requires Converged(labels, shown) && run.Some?
    ensures Pass(run, labels, {}) == labels <==> EffectLabel(run.value) == Some(shown)
  {
    CleanPassDelivers(run, labels);
    EffectsListed();
    var o := Overlay(labels, Desired(run, labels));
    assert forall l :: l in o <==> if IsEffect(l) then Desired(run, labels) == Some(l) else l in labels;
    assert shown in labels;
  }

  /** A terminally stuck issue gets no row, so no pass touches its label, and it stays in front of a human. */
  lemma StuckStaysStuck(g: GitHub, n: nat, c: Context, f: nat -> bool, m: Master)
    requires n in g.issues && AgentStuck in g.issues[n].labels && DaemonAnomaly !in g.issues[n].labels
    requires c.issue == g.issues[n] && c.run == None && c.issue.open && !c.inFlight
    ensures var t, labels := Rehydrated(g, Contents(map[], map[], []), g.prs), g.issues[n].labels;
            && StatusOf(t, n) == None
            && Assess(c, labels, f) == AwaitingHuman && Surface(c, labels, f, {}, m) == labels
  {
    var labels := g.issues[n].labels;
    RebuiltFromGitHub(g, Contents(map[], map[], []), g.prs, n);
    GateMeaning(c.issue.(labels := labels - {DaemonAnomaly}), f);
    assert AgentStuck in labels - {DaemonAnomaly} && IsPaused(AgentStuck);
  }

  /**
   * Who asked survives the crash: a rebuilt pause re-adopts a master's question exactly when a
   * request older than the latest question stands in the thread, and a maxed-out review never does.
   */
  lemma ProvenanceSurvives(labels: set<Label>, thread: seq<Comment>)
    requires ReconstructPaused(labels, thread).Some?
    ensures var p := ReconstructPaused(labels, thread).value;
            var facts := PausedFacts(p);
            && (MasterHumanQuestionRequested in facts <==>
                ReviewMaxed !in labels && exists c | c in thread :: c.body.MasterRequest? && c.id < p.comment)
            && Fold(facts) == Some(p.status)
            && (p.status.ReviewMaxedOut? <==> ReviewMaxed in labels)
            && exists i | 0 <= i < |thread| ::
                 && thread[i] == Comment(p.comment, Question(p.phase))
                 && forall k | i < k < |thread| :: !thread[k].body.Question?
  {
    var p := ReconstructPaused(labels, thread).value;
    FoldsTo(PausedFacts(p));
    var q := LatestQuestion(thread).value;
    assert thread[q] == Comment(p.comment, Question(p.phase));
    assert forall c | c in thread :: IsRequestBefore(c, Some(p.comment)) <==> c.body.MasterRequest? && c.id < p.comment;
  }

  /**
   * What the rebuilt stream says besides the status: a pause is filed under the latest question's comment,
   * a maxed-out review with the phase asked in (the first when none was), and a master's part with the
   * signature of its last request, for a question the last one before it.
   */
  lemma FactsSurvive(labels: set<Label>, thread: seq<Comment>)
    ensures var (facts, resume) := Reconstruct(labels, thread);
            && (forall c | Escalated(c) in facts :: resume.Some? && resume.value.comment == c)
            && (resume.Some? ==> Escalated(resume.value.comment) in facts)
            && (forall n | ReviewMaxedFact(n) in facts ::
                  exists q | q in thread :: q.body.Question? && q.id == resume.value.comment
                    && n == match q.body.phase case Some(phase) => phase case None => 1)
            && (forall sig | MasterTriageRequested(sig) in facts :: facts == [MasterTriageRequested(sig)] && LatestRequest(thread, None) == Some(sig))
            && (forall sig | MasterInterventionStarted(sig) in facts ::
                  resume.Some? && LatestRequest(thread, Some(resume.value.comment)) == Some(sig))
  {
    QuestionFound(thread);
    if ReconstructPaused(labels, thread).Some? {
      var q := LatestQuestion(thread).value;
      assert thread[q] in thread && thread[q].body.Question?;
    }
  }

  /** Which durable state wins when several are shown: a pause with its question, then the furthest along. */
  lemma FurthestStateWins(labels: set<Label>, thread: seq<Comment>)
    ensures var status := Fold(Reconstruct(labels, thread).0);
            var asked := HasQuestion(thread) && (ReviewMaxed in labels || AwaitingAnswer in labels || Ready in labels);
            && (status == Some(ReviewMaxedOut) <==> HasQuestion(thread) && ReviewMaxed in labels)
            && (status == Some(AwaitingAnswering) <==> asked && ReviewMaxed !in labels)
            && (status == Some(AwaitingMerging) <==> !asked && AwaitingMerge in labels)
            && (status == Some(AwaitingCiChecks) <==> !asked && AwaitingMerge !in labels && AwaitingCi in labels)
            && (status == Some(InMasterTriage) <==>
                !asked && AwaitingMerge !in labels && AwaitingCi !in labels && MasterTriage in labels && HasRequest(thread))
  {
    QuestionFound(thread);
    RequestFound(thread);
    FoldsTo(Reconstruct(labels, thread).0);
    if ReconstructPaused(labels, thread).Some? {
      FoldsTo(PausedFacts(ReconstructPaused(labels, thread).value));
    }
  }

  /** A rebuilt pause resumes on its own question, in the phase that question was asked in; a heal-card without one re-runs from the gate. */
  lemma ResumeContextSurvives(labels: set<Label>, thread: seq<Comment>)
    ensures var r := Reconstruct(labels, thread).1;
            && (r.Some? <==> HasQuestion(thread) && (ReviewMaxed in labels || AwaitingAnswer in labels || Ready in labels))
            && (r.Some? ==> exists i | 0 <= i < |thread| ::
                  && thread[i].body.Question? && thread[i].id == r.value.comment
                  && (forall k | i < k < |thread| :: !thread[k].body.Question?)
                  && r.value.phase == if ReviewMaxed in labels && thread[i].body.phase.None? then Some(0) else thread[i].body.phase)
  {
    QuestionFound(thread);
    if Reconstruct(labels, thread).1.Some? {
      var q := LatestQuestion(thread).value;
      assert thread[q].body.Question?;
    }
  }
}
