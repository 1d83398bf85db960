/** The fast-forward-only refresh of a target clone's base checkout. */
module CloneSync {
  import opened Wrappers

  // ---------------------------------------------------------------- commits

  /** A commit graph: the parents of each commit, all of them older. */
  type Dag = seq<set<nat>>

  ghost predicate Ancestor(dag: Dag, a: nat, b: nat)
    decreases b
  {
    a == b || (b < |dag| && exists p | p in dag[b] :: p < b && Ancestor(dag, a, p))
  }

  lemma {:induction false} AncestorTransitive(dag: Dag, a: nat, b: nat, c: nat)
    requires Ancestor(dag, a, b) && Ancestor(dag, b, c)
    ensures Ancestor(dag, a, c)
    decreases c
  {
    if b != c {
      var p :| p in dag[c] && p < c && Ancestor(dag, b, p);
      AncestorTransitive(dag, a, b, p);
    }
  }

  // ---------------------------------------------------------------- the decision

  datatype Anomaly = CloneDirty | CloneOffBase | CloneDiverged | FastForwardRefused

  datatype BaseState = BaseState(branch: Option<string>, dirty: bool, local: nat, remote: nat, fastForwardable: bool)

  datatype Plan = Current | FastForward | Refuse(reason: Anomaly)

  /** The refusals first, in danger order: edits are refused even on a current clone. */
  function PlanCloneSync(s: BaseState, base: string): Plan {
    if s.dirty then Refuse(CloneDirty)
    else if s.branch != Some(base) then Refuse(CloneOffBase)
    else if s.local == s.remote then Current
    else if s.fastForwardable then FastForward
    else Refuse(CloneDiverged)
  }

  /** The clone's checkout: its branch unless HEAD is detached, HEAD's commit, and its view of the remote base. */
  datatype Clone = Clone(branch: Option<string>, dirty: bool, head: nat, remote: nat)

  /** The daemon's promise about a target: HEAD stays on its branch and only moves to descendants. */
  ghost predicate Keeps(dag: Dag, before: Clone, after: Clone) {
    after.branch == before.branch && Ancestor(dag, before.head, after.head)
  }

  // ---------------------------------------------------------------- the permitted git surface

  /** A git invocation: the command name and its arguments. */
  type Args = seq<string>

  const COMMANDS: seq<string> := ["fetch", "symbolic-ref", "status", "rev-parse", "merge-base", "merge"]

  function Command(args: Args): string { if args == [] then "" else args[0] }

  /** The guard as written: an allowlist of command names, and `--ff-only` somewhere in a merge. */
  predicate CloneSafe(args: Args) {
    Command(args) in COMMANDS && (Command(args) == "merge" ==> "--ff-only" in args)
  }

  /** The commands that write to a repository beyond a fetch and a fast-forward. */
  const MUTATING: set<string> := {"push", "commit", "add", "tag", "checkout", "reset", "rebase", "clean"}

  /** Nothing that names no command or a mutating one gets past the guard, nor any merge that is not told to fast-forward. */
  lemma GuardRefuses(args: Args)
    ensures args == [] || args[0] in MUTATING ==> !CloneSafe(args)
    ensures args != [] && args[0] == "merge" ==> (CloneSafe(args) <==> "--ff-only" in args)
    ensures CloneSafe(args) ==> args[0] in {"fetch", "merge", "symbolic-ref", "status", "rev-parse", "merge-base"}
  {
    assert COMMANDS[5] == "merge";
    forall i | 0 <= i < |COMMANDS|
      ensures COMMANDS[i] !in MUTATING && COMMANDS[i] != ""
    {
      assert |COMMANDS[i]| > 0;
    }
  }

  function RemoteRef(base: string): string { "refs/remotes/origin/" + base }

  function FetchArgs(base: string): Args { ["fetch", "origin", base] }

  function MergeArgs(base: string): Args { ["merge", "--ff-only", RemoteRef(base)] }

  const SYMBOLIC_REF: Args := ["symbolic-ref", "--quiet", "--short", "HEAD"]
  const STATUS: Args := ["status", "--porcelain", "--untracked-files=no"]

  function RevParse(ref: string): Args { ["rev-parse", ref] }

  function IsAncestorArgs(a: string, b: string): Args { ["merge-base", "--is-ancestor", a, b] }

  // ---------------------------------------------------------------- what git may do

  predicate IsOption(arg: string) { |arg| > 0 && arg[0] == '-' }

  predicate OperandAt(args: Args, k: int) { 1 <= k < |args| && !IsOption(args[k]) }

  /** The options whose effect is read here; every other option of a writing command is given no promise at all. */
  function Flags(command: string): set<string> {
    if command == "fetch" then {"--quiet", "-q", "--force", "-f", "--update-head-ok", "-u"}
    else if command == "symbolic-ref" then {"--quiet", "-q", "--short"}
    else {"--quiet", "-q", "--ff-only"}
  }

  predicate Writer(args: Args) { Command(args) in {"fetch", "symbolic-ref", "merge"} }

  predicate Unread(args: Args) {
    Writer(args) && exists k | 1 <= k < |args| :: IsOption(args[k]) && args[k] !in Flags(args[0])
  }

  const REFS := "refs/"
  const HEADS := "refs/heads/"

  /** `symbolic-ref <name> <target>`: the two operands, and no third. */
  predicate Points(args: Args, j: nat, k: nat) {
    OperandAt(args, j) && OperandAt(args, k) && j < k && forall i | 1 <= i < |args| && OperandAt(args, i) :: i == j || i == k
  }

  /** A refspec: an operand of a fetch after the remote's name. */
  predicate RefspecAt(args: Args, k: int) { OperandAt(args, k) && exists j | 1 <= j < k :: OperandAt(args, j) }

  /** The local ref a refspec's destination stands for. */
  function Qualified(dst: string): string {
    if REFS <= dst then dst
    else if "heads/" <= dst || "tags/" <= dst || "remotes/" <= dst then REFS + dst
    else HEADS + dst
  }

  /** The destination of a refspec begins at `i`, right after its last colon. */
  predicate DestinationAt(spec: string, i: int) {
    1 <= i < |spec| && spec[i - 1] == ':' && ':' !in spec[i..]
  }

  predicate Forced(args: Args, spec: string) {
    "--force" in args || "-f" in args || (|spec| > 0 && spec[0] == '+')
  }

  predicate MayMoveHead(args: Args) { "--update-head-ok" in args || "-u" in args }

  predicate StarAt(pattern: string, i: int) { 0 <= i < |pattern| && pattern[i] == '*' }

  /** A destination names a ref outright, or every ref that fits around its star. */
  predicate Names(pattern: string, name: string) {
    if '*' !in pattern then pattern == name
    else exists i | 0 <= i < |pattern| && StarAt(pattern, i) :: Around(pattern[..i], pattern[i + 1..], name)
  }

  predicate Around(pre: string, post: string, name: string) {
    |pre| + |post| <= |name| && name[..|pre|] == pre && name[|name| - |post|..] == post
  }

  /** A fetch told that it may move the checked-out branch does: to a descendant, or anywhere when forced. */
  ghost predicate MovesBranch(dag: Dag, clone: Clone, args: Args, head: nat) {
    && MayMoveHead(args) && clone.branch.Some?
    && exists k, i | RefspecAt(args, k) && DestinationAt(args[k], i) ::
         && Names(Qualified(args[k][i..]), HEADS + clone.branch.value)
         && (Forced(args, args[k]) || Ancestor(dag, clone.head, head))
  }

  predicate PlainChar(c: char) {
    'A' <= c <= 'Z' || 'a' <= c <= 'z' || '0' <= c <= '9' || c == '_' || c == '-' || c == '/'
  }

  /** A name git takes for itself: no special character, no dot, no empty component. */
  predicate Plain(name: string) {
    && name != "" && name[0] != '/' && name[|name| - 1] != '/'
    && (forall c | c in name :: PlainChar(c))
    && forall i | 0 < i < |name| :: name[i] == '/' ==> name[i - 1] != '/'
  }

  predicate BranchName(name: string) { Plain(name) && name != "HEAD" }

  /** The full name of a local branch, plainly spelled. */
  predicate LocalBranch(ref: string) { HEADS <= ref && BranchName(ref[|HEADS|..]) }

  /** A symbolic write whose effect is read here: of HEAD or a local branch, onto another local branch. */
  predicate ReadPointer(name: string, target: string) {
    (name == "HEAD" || LocalBranch(name)) && LocalBranch(target) && name != target
  }

  /** Such a write moves HEAD when it names HEAD or the branch HEAD is on; onto the same branch it moves nothing. */
  predicate Repoints(before: Clone, name: string, target: string, after: Clone)
    requires LocalBranch(target)
  {
    if name == "HEAD" || (before.branch.Some? && name == HEADS + before.branch.value) then
      && after.branch == Some(target[|HEADS|..])
      && (after.branch == before.branch ==> after.head == before.head)
    else
      after == before
  }

  /**
   * What a permitted invocation may leave behind, as git documents it for a remote with the default
   * configuration: any command may fail and change nothing, an inspection never changes anything,
   * and an option or a symbolic write that is not read here, such as one that spells HEAD another
   * way, may do anything.
   */
  ghost predicate Git(dag: Dag, base: string, before: Clone, args: Args, after: Clone) {
    || after == before
    || Unread(args)
    || (Command(args) == "fetch" && after.branch == before.branch
        && (after == before.(remote := after.remote) || MovesBranch(dag, before, args, after.head)))
    || (Command(args) == "merge" && after == before.(head := after.head) && Ancestor(dag, before.head, after.head)
        && (args == MergeArgs(base) ==> after.head == before.remote))
    || (Command(args) == "symbolic-ref"
        && exists j: nat, k: nat | Points(args, j, k) ::
             ReadPointer(args[j], args[k]) ==> Repoints(before, args[j], args[k], after))
  }

  // ---------------------------------------------------------------- which permitted commands keep history

  /** Some ref under `refs/heads/` fits the pattern. */
  predicate MayNameBranch(pattern: string) {
    if '*' !in pattern then HEADS <= pattern
    else exists i | 0 <= i < |pattern| && StarAt(pattern, i) :: pattern[..i] <= HEADS || HEADS <= pattern[..i]
  }

  /** A forced refspec onto a local branch, with leave to move the one checked out. */
  predicate Overwrites(args: Args) {
    && MayMoveHead(args)
    && exists k, i | 1 <= k < |args| && RefspecAt(args, k) && 1 <= i < |args[k]| && DestinationAt(args[k], i) ::
         Forced(args, args[k]) && MayNameBranch(Qualified(args[k][i..]))
  }

  /** A symbolic write, of whatever name. */
  predicate Writes(args: Args) {
    exists j: nat, k: nat | j < |args| && k < |args| :: Points(args, j, k)
  }

  /** What the guard would have to add: read every option of a writer, refuse forced branch fetches and symbolic writes. */
  predicate Harmless(args: Args) {
    && !Unread(args)
    && !(Command(args) == "fetch" && Overwrites(args))
    && !(Command(args) == "symbolic-ref" && Writes(args))
  }

  function Unforced(spec: string): string { if |spec| > 0 && spec[0] == '+' then spec[1..] else spec }

  /** A refspec git accepts as it stands: plain on both sides of its colon, if it has one. */
  predicate PlainSpec(spec: string) {
    && (':' !in spec ==> Plain(Unforced(spec)))
    && forall i | 1 <= i < |spec| && DestinationAt(spec, i) ::
         && (Unforced(spec[..i - 1]) == "" || Plain(Unforced(spec[..i - 1])))
         && Plain(spec[i..]) && (HEADS <= Qualified(spec[i..]) ==> LocalBranch(Qualified(spec[i..])))
  }

  /** The commands whose every argument is read: known options, plain names, one refspec at most. */
  predicate Understood(args: Args) {
    && !Unread(args)
    && (Command(args) == "symbolic-ref" ==>
          forall j: nat, k: nat | j < |args| && k < |args| && Points(args, j, k) :: ReadPointer(args[j], args[k]))
    && (Command(args) == "fetch" ==>
          && (forall k | 1 <= k < |args| && OperandAt(args, k) :: if RefspecAt(args, k) then PlainSpec(args[k]) else Plain(args[k]))
          && forall j, k | 1 <= j < k < |args| :: !(RefspecAt(args, j) && RefspecAt(args, k)))
  }

  lemma TwoPrefixes(a: string, b: string, name: string)
    requires a <= name && b <= name
    ensures a <= b || b <= a
  {
  }

  /** A pattern that names a local branch has the shape of one, and a pattern of that shape names one. */
  lemma NamedIsBranch(pattern: string, branch: string)
    requires Names(pattern, HEADS + branch)
    ensures MayNameBranch(pattern)
  {
    if '*' in pattern {
      var i :| 0 <= i < |pattern| && StarAt(pattern, i) && Around(pattern[..i], pattern[i + 1..], HEADS + branch);
      TwoPrefixes(pattern[..i], HEADS, HEADS + branch);
    }
  }

  /** Two commits with no history in common. */
  const ROOTS: Dag := [{}, {}]

  lemma Unrelated()
    ensures !Ancestor(ROOTS, 0, 1)
  {
    assert ROOTS[1] == {};
  }

  lemma HarmlessFetchKeeps(dag: Dag, before: Clone, args: Args, head: nat)
    requires !Overwrites(args) && MovesBranch(dag, before, args, head)
    ensures Ancestor(dag, before.head, head)
  {
    var k, i :| RefspecAt(args, k) && DestinationAt(args[k], i)
                && Names(Qualified(args[k][i..]), HEADS + before.branch.value)
                && (Forced(args, args[k]) || Ancestor(dag, before.head, head));
    NamedIsBranch(Qualified(args[k][i..]), before.branch.value);
  }

  /** A harmless permitted command keeps branch and history in every clone, whatever git makes of it. */
  lemma HarmlessKeeps(dag: Dag, base: string, before: Clone, args: Args, after: Clone)
    requires CloneSafe(args) && Harmless(args) && Git(dag, base, before, args, after)
    ensures Keeps(dag, before, after)
  {
    if after != before.(remote := after.remote) && Command(args) == "fetch" {
      HarmlessFetchKeeps(dag, before, args, after.head);
    }
  }

  /** In some clone, on no branch or a plainly named one, git may move HEAD off its branch or off its history. */
  ghost predicate MayBreak(base: string, args: Args) {
    exists dag, before: Clone, after ::
      && (before.branch.Some? ==> BranchName(before.branch.value))
      && Git(dag, base, before, args, after) && !Keeps(dag, before, after)
  }

  lemma OverwriteBreaks(base: string, args: Args)
    requires Command(args) == "fetch" && Understood(args) && Overwrites(args)
    ensures MayBreak(base, args)
  {
    var k, i :| 1 <= k < |args| && RefspecAt(args, k) && 1 <= i < |args[k]| && DestinationAt(args[k], i)
                && Forced(args, args[k]) && MayNameBranch(Qualified(args[k][i..]));
    assert OperandAt(args, k) && PlainSpec(args[k]);
    DestinationOverwritten(base, args, k, i);
  }

  lemma DestinationOverwritten(base: string, args: Args, k: int, i: int)
    requires Command(args) == "fetch" && MayMoveHead(args) && RefspecAt(args, k) && DestinationAt(args[k], i)
    requires Forced(args, args[k]) && PlainSpec(args[k]) && MayNameBranch(Qualified(args[k][i..]))
    ensures MayBreak(base, args)
  {
    var ref := Qualified(args[k][i..]);
    PlainHasNoStar(args[k][i..]);
    var branch := ref[|HEADS|..];
    assert HEADS + branch == ref;
    var before, after := Clone(Some(branch), false, 0, 1), Clone(Some(branch), false, 1, 1);
    assert MovesBranch(ROOTS, before, args, 1);
    Broken(base, before, args, after);
  }

  /** A clone left at an unrelated commit is broken. */
  lemma Broken(base: string, before: Clone, args: Args, after: Clone)
    requires before.head == 0 && after.head == 1 && Git(ROOTS, base, before, args, after)
    requires before.branch.Some? ==> BranchName(before.branch.value)
    ensures MayBreak(base, args)
  {
    Unrelated();
  }

  lemma PlainHasNoStar(dst: string)
    requires Plain(dst)
    ensures '*' !in Qualified(dst)
  {
    assert forall c | c in dst :: PlainChar(c);
  }

  lemma WriteBreaks(base: string, args: Args)
    requires Command(args) == "symbolic-ref" && Understood(args) && Writes(args)
    ensures MayBreak(base, args)
  {
    var j: nat, k: nat :| j < |args| && k < |args| && Points(args, j, k);
    var branch := if args[j] == "HEAD" then None else Some(args[j][|HEADS|..]);
    var before, after := Clone(branch, false, 0, 0), Clone(Some(args[k][|HEADS|..]), false, 1, 0);
    assert args[j] != "HEAD" ==> HEADS + branch.value == args[j];
    assert Repoints(before, args[j], args[k], after);
    Broken(base, before, args, after);
  }

  /**
   * The guard alone does not keep history. Of the permitted commands whose every argument is read,
   * one may move HEAD off its branch or its history exactly when it is not harmless.
   */
  lemma UnderstoodBreaksExactly(base: string, args: Args)
    requires CloneSafe(args) && Understood(args)
    ensures MayBreak(base, args) <==> !Harmless(args)
  {
    if Harmless(args) {
      forall dag, before, after | Git(dag, base, before, args, after)
        ensures Keeps(dag, before, after)
      {
        HarmlessKeeps(dag, base, before, args, after);
      }
    } else if Command(args) == "fetch" {
      OverwriteBreaks(base, args);
    } else {
      WriteBreaks(base, args);
    }
  }

  lemma MasterIsABranch(spec: string)
    requires spec == "+topic:master" && Plain("topic") && BranchName("master")
    ensures DestinationAt(spec, 7) && MayNameBranch(Qualified(spec[7..])) && PlainSpec(spec)
  {
    var branch := "master";
    assert spec[6] == ':' && spec[7..] == branch && spec[..6] == "+topic" && Unforced("+topic") == "topic";
    assert branch[0] == 'm' && REFS[0] == 'r' && "heads/"[0] == 'h' && "tags/"[0] == 't' && "remotes/"[0] == 'r';
    assert Qualified(branch) == HEADS + branch && (HEADS + branch)[|HEADS|..] == branch;
    forall i | 1 <= i < 7
      ensures !DestinationAt(spec, i)
    {
      ColonLater(spec, i, 7);
    }
    assert forall i | 6 < i < |spec| :: spec[i] == branch[i - 7];
  }

  lemma ColonLater(spec: string, i: int, j: int)
    requires 1 <= i < j < |spec| && spec[j - 1] == ':'
    ensures !DestinationAt(spec, i)
  {
    assert spec[i..][j - 1 - i] == ':';
  }

  lemma PlainWords()
    ensures BranchName("other") && Plain("origin") && Plain("topic") && BranchName("master")
  {
    assert |"HEAD"| == 4;
  }

  /** Permitted, and yet HEAD may be pointed at another branch. */
  lemma GuardPermitsPointers(base: string)
    ensures var args := ["symbolic-ref", "HEAD", "refs/heads/other"]; CloneSafe(args) && Understood(args) && MayBreak(base, args)
  {
    var args := ["symbolic-ref", "HEAD", "refs/heads/other"];
    PlainWords();
    assert args[2][|HEADS|..] == "other" && args[2][0] == 'r';
    assert Points(args, 1, 2);
    UnderstoodBreaksExactly(base, args);
  }

  /** Permitted, and yet a fetch may overwrite the branch HEAD is on. */
  lemma GuardPermitsOverwrites(base: string)
    ensures var args := ["fetch", "origin", "+topic:master", "--update-head-ok"];
            CloneSafe(args) && Understood(args) && MayBreak(base, args)
  {
    var args := ["fetch", "origin", "+topic:master", "--update-head-ok"];
    PlainWords();
    MasterIsABranch(args[2]);
    FetchIsUnderstood(args);
    DestinationOverwritten(base, args, 2, 7);
  }

  lemma FetchIsUnderstood(args: Args)
    requires |args| == 4 && args[0] == "fetch" && args[3] == "--update-head-ok"
    requires Plain(args[1]) && args[1][0] != '-' && PlainSpec(args[2]) && |args[2]| > 0 && args[2][0] != '-'
    ensures RefspecAt(args, 2) && Understood(args)
  {
    assert OperandAt(args, 1) && !RefspecAt(args, 1);
  }

  /** Permitted, and read by nothing here: HEAD spelled as git's main worktree spells it. */
  lemma AliasIsNotHarmless(base: string)
    ensures var args := ["symbolic-ref", "main-worktree/HEAD", "refs/heads/other"];
            CloneSafe(args) && !Harmless(args) && !Understood(args)
  {
    var args := ["symbolic-ref", "main-worktree/HEAD", "refs/heads/other"];
    assert args[1][0] == 'm' && HEADS[0] == 'r' && |args[1]| != |"HEAD"|;
    assert Points(args, 1, 2);
  }

  /** Permitted and harmless, and yet a merge of another ref may leave HEAD off the fetched base. */
  lemma GuardPermitsOtherMerges(base: string)
    ensures var args := ["merge", "--ff-only", "topic"];
            && CloneSafe(args) && Harmless(args)
            && exists dag, before, after :: Git(dag, base, before, args, after) && after.head !in {before.head, before.remote}
  {
    var args := ["merge", "--ff-only", "topic"];
    var dag: Dag := [{}, {0}, {0}];
    var before, after := Clone(Some(base), false, 0, 1), Clone(Some(base), false, 2, 1);
    assert 0 in dag[2] && Ancestor(dag, 0, 0);
    TopicIsNotTracked(args, base);
    assert Git(dag, base, before, args, after);
  }

  lemma TopicIsNotTracked(args: Args, base: string)
    requires args == ["merge", "--ff-only", "topic"]
    ensures args != MergeArgs(base)
  {
    assert args[2][0] == 't' && RemoteRef(base)[0] == 'r';
  }

  // ---------------------------------------------------------------- the invocations the synchronizer issues

  predicate Issued(base: string, args: Args) {
    || args in {FetchArgs(base), SYMBOLIC_REF, STATUS, RevParse("HEAD"), RevParse(RemoteRef(base)), MergeArgs(base)}
    || (|args| == 4 && args == IsAncestorArgs(args[2], args[3]))
  }

  /** A base that git could take for an option it is given no promise about. */
  predicate ReadsAsOption(base: string) { IsOption(base) && base !in Flags("fetch") }

  lemma IssuedIsPermitted(base: string, args: Args)
    requires Issued(base, args)
    ensures CloneSafe(args)
  {
  }

  lemma IssuedIsHarmless(base: string, args: Args)
    requires Issued(base, args) && !ReadsAsOption(base)
    ensures Harmless(args)
  {
  }

  /** The synchronizer's own invocations are all permitted, and all harmless unless the base reads as an option. */
  lemma IssuedKeepsExactly(base: string)
    ensures forall args | Issued(base, args) :: CloneSafe(args)
    ensures (forall args | Issued(base, args) :: Harmless(args)) <==> !ReadsAsOption(base)
  {
    forall args | Issued(base, args)
      ensures CloneSafe(args) && (!ReadsAsOption(base) ==> Harmless(args))
    {
      IssuedIsPermitted(base, args);
      if !ReadsAsOption(base) {
        IssuedIsHarmless(base, args);
      }
    }
    assert Issued(base, FetchArgs(base)) && FetchArgs(base)[2] == base;
  }

  lemma IssuedFetchSparesHead(dag: Dag, base: string, before: Clone, head: nat)
    ensures !MovesBranch(dag, before, FetchArgs(base), head)
  {
    assert forall k | OperandAt(FetchArgs(base), k) && k > 1 :: FetchArgs(base)[k] == base;
  }

  /** An issued invocation moves HEAD nowhere but onto the base as it was fetched, and only forwards. */
  lemma IssuedStep(dag: Dag, base: string, before: Clone, args: Args, after: Clone)
    requires Issued(base, args) && !ReadsAsOption(base) && Git(dag, base, before, args, after)
    ensures Keeps(dag, before, after) && after.dirty == before.dirty
    ensures after.head == before.head || after.head == before.remote
  {
    IssuedIsPermitted(base, args);
    IssuedIsHarmless(base, args);
    HarmlessKeeps(dag, base, before, args, after);
    if args == FetchArgs(base) {
      IssuedFetchSparesHead(dag, base, before, after.head);
    }
  }

  /** A run of issued invocations, and the clone before, between and after them. */
  ghost predicate Ran(dag: Dag, base: string, run: seq<Args>, states: seq<Clone>) {
    && |states| == |run| + 1
    && forall i | 0 <= i < |run| :: Issued(base, run[i]) && Git(dag, base, states[i], run[i], states[i + 1])
  }

  /** The commits HEAD may be found at: where it was, and wherever the fetched base has been. */
  function Sighted(states: seq<Clone>): set<nat>
    requires states != []
  {
    {states[0].head} + set i | 0 <= i < |states| :: states[i].remote
  }

  /**
   * However the synchronizer's invocations follow each other and whatever git makes of each, HEAD
   * stays on its branch, uncommitted edits stay, history is only added to, and HEAD ends where it
   * was or at a base that was fetched.
   */
  lemma {:induction false} HistoryIsNeverRewritten(dag: Dag, base: string, run: seq<Args>, states: seq<Clone>)
    requires Ran(dag, base, run, states) && !ReadsAsOption(base)
    ensures Keeps(dag, states[0], states[|run|]) && states[|run|].dirty == states[0].dirty
    ensures states[|run|].head in Sighted(states)
    decreases |run|
  {
    if run != [] {
      var n := |run| - 1;
      HistoryIsNeverRewritten(dag, base, run[..n], states[..n + 1]);
      IssuedStep(dag, base, states[n], run[n], states[n + 1]);
      AncestorTransitive(dag, states[0].head, states[n].head, states[n + 1].head);
    }
  }

  // ---------------------------------------------------------------- the refresh

  datatype Kind = WasCurrent | WasForwarded

  datatype Synced = Synced(kind: Kind, head: nat, previousHead: nat)

  datatype Failure = FetchFailed | InspectionFailed | Anomalous(reason: Anomaly)

  /** Which of the refresh's processes exit non-zero, and whether git itself refuses the merge. */
  datatype Faults = Faults(symbolicRef: bool, status: bool, local: bool, remote: bool, mergeBase: bool, merge: bool)

  function Fetched(clone: Clone, tip: Option<nat>): Clone {
    if tip.Some? then clone.(remote := tip.value) else clone
  }

  /**
   * What the inspections report: no branch when `symbolic-ref` fails, no fast-forward when
   * `merge-base` does, and an error when one of the others does.
   */
  ghost function Observed(dag: Dag, clone: Clone, f: Faults): Result<BaseState, Failure> {
    if f.status || f.local || f.remote then Err(InspectionFailed)
    else Ok(BaseState(if f.symbolicRef then None else clone.branch, clone.dirty, clone.head, clone.remote,
                      clone.head == clone.remote || (!f.mergeBase && Ancestor(dag, clone.head, clone.remote))))
  }

  ghost predicate Advances(dag: Dag, clone: Clone, f: Faults) { !f.merge && Ancestor(dag, clone.head, clone.remote) }

  /** The clone after the decision is carried out, and what the refresh resolves or rejects with. */
  ghost function Concluded(dag: Dag, base: string, seen: Result<BaseState, Failure>, clone: Clone, f: Faults)
    : (Clone, Result<Synced, Failure>)
  {
    if seen.Err? then (clone, Err(seen.error))
    else
      match PlanCloneSync(seen.value, base)
      case Refuse(reason) => (clone, Err(Anomalous(reason)))
      case Current => (clone, Ok(Synced(WasCurrent, seen.value.local, seen.value.local)))
      case FastForward =>
        if Advances(dag, clone, f)
        then (clone.(head := clone.remote), Ok(Synced(WasForwarded, seen.value.remote, seen.value.local)))
        else (clone, Err(Anomalous(FastForwardRefused)))
  }

  /** One clone, its git edge guarded by the allowlist. */
  class TargetClone {
    const base: string
    const sha: nat -> string
    ghost const dag: Dag
    var branch: Option<string>
    var dirty: bool
    var head: nat
    var remote: nat
    ghost var executed: seq<Args>

    constructor (base: string, sha: nat -> string, ghost dag: Dag, clone: Clone)
      ensures this.base == base && this.sha == sha && this.dag == dag && Value() == clone && executed == []
    {
      this.base, this.sha, this.dag := base, sha, dag;
      branch, dirty, head, remote := clone.branch, clone.dirty, clone.head, clone.remote;
      executed := [];
    }

    function Value(): Clone
      reads this
    {
      Clone(branch, dirty, head, remote)
    }

    /** `git fetch origin <base>`: moves the remote-tracking ref, or fails. */
    method Fetch(tip: Option<nat>) returns (ok: bool)
      modifies this`remote, this`executed
      ensures ok == tip.Some? && Value() == Fetched(old(Value()), tip)
      ensures executed == old(executed) + [FetchArgs(base)] && Git(dag, base, old(Value()), FetchArgs(base), Value())
    {
      executed := executed + [FetchArgs(base)];
      ok := tip.Some?;
      if ok {
        remote := tip.value;
      }
    }

    /** The read-only inspections, each of which may fail. */
    method ReadState(isAncestor: (nat, nat) -> bool, f: Faults) returns (s: Result<BaseState, Failure>)
      requires forall a, b :: isAncestor(a, b) <==> Ancestor(dag, a, b)
      modifies this`executed
      ensures s == Observed(dag, Value(), f)
      ensures old(executed) <= executed && forall args | args in executed[|old(executed)|..] :: Issued(base, args)
    {
      executed := executed + [SYMBOLIC_REF, STATUS];
      var current := if f.symbolicRef then None else branch;
      if f.status {
        return Err(InspectionFailed);
      }
      executed := executed + [RevParse("HEAD")];
      if f.local {
        return Err(InspectionFailed);
      }
      executed := executed + [RevParse(RemoteRef(base))];
      if f.remote {
        return Err(InspectionFailed);
      }
      var fastForwardable := true;
      if head != remote {
        executed := executed + [IsAncestorArgs(sha(head), sha(remote))];
        fastForwardable := !f.mergeBase && isAncestor(head, remote);
      }
      s := Ok(BaseState(current, dirty, head, remote, fastForwardable));
    }

    /** `git merge --ff-only`: advances HEAD along its own descendants, or refuses. */
    method MergeFastForward(isAncestor: (nat, nat) -> bool, f: Faults) returns (ok: bool)
      requires forall a, b :: isAncestor(a, b) <==> Ancestor(dag, a, b)
      modifies this`head, this`executed
      ensures ok <==> Advances(dag, old(Value()), f)
      ensures Value() == if ok then old(Value()).(head := remote) else old(Value())
      ensures executed == old(executed) + [MergeArgs(base)] && Git(dag, base, old(Value()), MergeArgs(base), Value())
    {
      executed := executed + [MergeArgs(base)];
      ok := !f.merge && isAncestor(head, remote);
      if ok {
        head := remote;
      }
    }

    /**
     * Bring the base checkout onto the fetched base. It succeeds exactly on a clean base checkout
     * that is there already or can be fast-forwarded; success leaves HEAD at the fetched commit with
     * the old HEAD behind it, and a refusal leaves HEAD where it was. Only the issued commands run.
     */
    method Sync(tip: Option<nat>, isAncestor: (nat, nat) -> bool, f: Faults) returns (r: Result<Synced, Failure>)
      requires forall a, b :: isAncestor(a, b) <==> Ancestor(dag, a, b)
      modifies this
      ensures tip.Some? ==> var clone := Fetched(old(Value()), tip);
                            (Value(), r) == Concluded(dag, base, Observed(dag, clone, f), clone, f)
      ensures r.Ok? <==>
                && tip.Some? && !f.status && !f.local && !f.remote
                && !old(dirty) && !f.symbolicRef && old(branch) == Some(base)
                && (old(head) == tip.value || (!f.mergeBase && !f.merge && Ancestor(dag, old(head), tip.value)))
      ensures r.Ok? ==> head == tip.value && Ancestor(dag, old(head), head) && r.value.head == head && r.value.previousHead == old(head)
      ensures r.Ok? ==> (r.value.kind.WasCurrent? <==> old(head) == tip.value)
      ensures r.Err? ==> head == old(head)
      ensures r.Err? ==>
                r.error == if tip.None? then FetchFailed
                           else if f.status || f.local || f.remote then InspectionFailed
                           else if old(dirty) then Anomalous(CloneDirty)
                           else if f.symbolicRef || old(branch) != Some(base) then Anomalous(CloneOffBase)
                           else if f.mergeBase || !Ancestor(dag, old(head), tip.value) then Anomalous(CloneDiverged)
                           else Anomalous(FastForwardRefused)
      ensures branch == old(branch) && dirty == old(dirty)
      ensures old(executed) <= executed && forall args | args in executed[|old(executed)|..] :: Issued(base, args)
    {
      var fetched := Fetch(tip);
      if !fetched {
        return Err(FetchFailed);
      }
      var state := ReadState(isAncestor, f);
      if state.Err? {
        return Err(state.error);
      }
      assert Ancestor(dag, head, head);
      var plan := PlanCloneSync(state.value, base);
      match plan {
        case Refuse(reason) => return Err(Anomalous(reason));
        case Current => return Ok(Synced(WasCurrent, state.value.local, state.value.local));
        case FastForward =>
          var ok := MergeFastForward(isAncestor, f);
          if !ok {
            return Err(Anomalous(FastForwardRefused));
          }
          return Ok(Synced(WasForwarded, state.value.remote, state.value.local));
      }
    }
  }
}
