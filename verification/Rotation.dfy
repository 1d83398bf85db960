/** Which login new sessions bind to: the pure round-robin over logins with headroom. */
module Rotation {
  import opened Wrappers
  import opened Usage

  type Logins = map<string, UsageState>

  /** The knobs a pick reads besides the logins themselves. */
  datatype Policy = Policy(admitBelow: real, rotateEvery: Option<int>)

  /** A login never heard of has the empty state. */
  function StateOf(states: Logins, id: string): UsageState {
    if id in states then states[id] else EMPTY_USAGE
  }

  /** Whether each login is unavailable for new work at `now`. */
  function GatedAt(states: Logins, now: int, admitBelow: real): string -> bool {
    (id: string) => !Admits(StateOf(states, id), now, admitBelow)
  }

  ghost predicate Distinct<T>(s: seq<T>) {
    forall i, j | 0 <= i < j < |s| :: s[i] != s[j]
  }

  function IndexOf(ids: seq<string>, id: string): (i: int)
    ensures -1 <= i < |ids|
    ensures i >= 0 ==> ids[i] == id
    ensures i < 0 <==> id !in ids
  {
    if ids == [] then -1
    else if ids[0] == id then 0
    else var rest := IndexOf(ids[1..], id); if rest < 0 then -1 else rest + 1
  }

  predicate TimerElapsed(policy: Policy, last: int, now: int) {
    policy.rotateEvery.Some? && now - last >= policy.rotateEvery.value
  }

  /** The logins with headroom, in configured order. */
  function Headroom(ids: seq<string>, gated: string -> bool): seq<string> {
    if ids == [] then [] else (if gated(ids[0]) then [] else [ids[0]]) + Headroom(ids[1..], gated)
  }

  /** The other logins in the order a pick considers them: after the active one, then wrapping. */
  function Others(ids: seq<string>, active: string): seq<string> {
    var start := IndexOf(ids, active);
    if start < 0 then ids else ids[start + 1..] + ids[..start]
  }

  /** The login and rotation clock a pick leaves behind. */
  function Picked(ids: seq<string>, gated: string -> bool, active: string, last: int, now: int, policy: Policy): (string, int) {
    if |ids| <= 1 then (if ids == [] then active else ids[0], last)
    else if !gated(active) && !TimerElapsed(policy, last, now) then (active, last)
    else
      var candidates := Headroom(Others(ids, active), gated);
      if candidates != [] then (candidates[0], now)
      else (active, if TimerElapsed(policy, last, now) then now else last)
  }

  lemma {:induction false} HeadroomMembers(ids: seq<string>, gated: string -> bool)
    ensures forall id :: id in Headroom(ids, gated) <==> id in ids && !gated(id)
    ensures |Headroom(ids, gated)| <= |ids|
  {
    if ids != [] {
      HeadroomMembers(ids[1..], gated);
    }
  }

  lemma {:induction false} HeadroomConcat(a: seq<string>, b: seq<string>, gated: string -> bool)
    ensures Headroom(a + b, gated) == Headroom(a, gated) + Headroom(b, gated)
  {
    if a == [] {
      assert a + b == b;
    } else {
      assert (a + b)[1..] == a[1..] + b;
      HeadroomConcat(a[1..], b, gated);
    }
  }

  lemma {:induction false} NoHeadroom(ids: seq<string>, gated: string -> bool)
    requires forall j | 0 <= j < |ids| :: gated(ids[j])
    ensures Headroom(ids, gated) == []
  {
    if ids != [] {
      NoHeadroom(ids[1..], gated);
    }
  }

  lemma {:induction false} FirstWithHeadroom(ids: seq<string>, k: int, gated: string -> bool)
    requires 0 <= k < |ids| && !gated(ids[k])
    requires forall j | 0 <= j < k :: gated(ids[j])
    ensures Headroom(ids, gated) != [] && Headroom(ids, gated)[0] == ids[k]
  {
    if k > 0 {
      FirstWithHeadroom(ids[1..], k - 1, gated);
    }
  }

  // ---------------------------------------------------------------- the ring

  /** The next position on a ring of `n`. */
  function Step(j: nat, n: nat): (r: nat)
    requires j < n
    ensures r < n
  {
    if j + 1 == n then 0 else j + 1
  }

  /** The position `k` steps on from `j`. */
  function Along(j: nat, k: nat, n: nat): (r: nat)
    requires j < n
    ensures r < n
    decreases k
  {
    if k == 0 then j else Along(Step(j, n), k - 1, n)
  }

  lemma {:induction false} WithinOneTurn(j: nat, k: nat, n: nat)
    requires j < n && k <= n
    ensures Along(j, k, n) == if j + k < n then j + k else j + k - n
    decreases k
  {
    if k > 0 {
      WithinOneTurn(Step(j, n), k - 1, n);
    }
  }

  /** A quotient and a remainder below the divisor determine `%`. */
  lemma RemainderIsUnique(x: nat, n: nat, q: nat, r: nat)
    requires n > 0 && r < n && x == n * q + r
    ensures x % n == r
  {
    var d := q - x / n;
    assert n * d == x % n - r by {
      assert n * d == n * q - n * (x / n);
    }
    assert d == 0;
  }

  /** The index search wraps at most once, so its remainder is a subtraction. */
  method Remainder(x: nat, n: nat) returns (r: nat)
    requires n > 0 && x < 2 * n
    ensures r == if x < n then x else x - n
  {
    RemainderIsUnique(x, n, if x < n then 0 else 1, if x < n then x else x - n);
    r := x % n;
  }

  lemma OthersMembers(ids: seq<string>, active: string)
    requires Distinct(ids)
    ensures active in ids ==> |Others(ids, active)| == |ids| - 1
    ensures active !in ids ==> Others(ids, active) == ids
    ensures active !in Others(ids, active)
    ensures forall x | x != active :: x in ids <==> x in Others(ids, active)
  {
    var start := IndexOf(ids, active);
    if start >= 0 {
      assert ids == ids[..start] + [ids[start]] + ids[start + 1..];
    }
  }

  /** A list read from the place after `start` on, round to `start` itself. */
  lemma RotatedAt<T>(s: seq<T>, start: nat, i: nat)
    requires start < |s| && 1 <= i <= |s|
    ensures var at := start + i;
            s[if at < |s| then at else at - |s|] == (s[start + 1..] + s[..start] + [s[start]])[i - 1]
  {
  }

  /**
   * The element `i` places round from the active login is the `i`-th of the others, and then itself;
   * for a login outside the pool the search starts before the first place, and everyone is another.
   */
  lemma OthersAt(ids: seq<string>, active: string, i: nat)
    requires Distinct(ids) && 1 <= i <= |ids|
    ensures |Others(ids, active)| == if active in ids then |ids| - 1 else |ids|
    ensures var at := IndexOf(ids, active) + i;
            ids[if at < |ids| then at else at - |ids|] == (Others(ids, active) + [active])[i - 1]
  {
    var start := IndexOf(ids, active);
    if 0 <= start {
      RotatedAt(ids, start, i);
    }
  }

  // ---------------------------------------------------------------- the pick

  /** The login `k` places on from `from`, counting round the end of the pool. */
  function Onward(ids: seq<string>, from: string, k: nat): string
    requires 1 <= k <= |ids|
  {
    var at := IndexOf(ids, from) + k;
    ids[if at < |ids| then at else at - |ids|]
  }

  /** `to` is the first login with headroom after `from` in cyclic order, `from` itself left out. */
  ghost predicate NextOpen(ids: seq<string>, gated: string -> bool, from: string, to: string) {
    to != from && !gated(to) && exists k: nat | 1 <= k <= |ids| :: FirstAt(ids, gated, from, to, k)
  }

  ghost predicate FirstAt(ids: seq<string>, gated: string -> bool, from: string, to: string, k: nat)
    requires 1 <= k <= |ids|
  {
    Onward(ids, from, k) == to
    && forall i: nat | 1 <= i < k :: Onward(ids, from, i) == from || gated(Onward(ids, from, i))
  }

  /** A list that keeps something keeps first what comes first. */
  lemma {:induction false} KeptFirst(ids: seq<string>, gated: string -> bool) returns (k: nat)
    requires Headroom(ids, gated) != []
    ensures k < |ids| && !gated(ids[k]) && Headroom(ids, gated)[0] == ids[k]
    ensures forall j | 0 <= j < k :: gated(ids[j])
  {
    if !gated(ids[0]) {
      k := 0;
    } else {
      var rest := KeptFirst(ids[1..], gated);
      k := rest + 1;
    }
  }

  lemma OpenIsNext(ids: seq<string>, gated: string -> bool, active: string)
    requires Distinct(ids)
    ensures var open := Headroom(Others(ids, active), gated);
            && (open != [] ==> NextOpen(ids, gated, active, open[0]))
            && (open == [] <==> forall x | x in ids :: x == active || gated(x))
  {
    var others := Others(ids, active);
    OthersMembers(ids, active);
    HeadroomMembers(others, gated);
    if Headroom(others, gated) != [] {
      var k := KeptFirst(others, gated);
      assert others[k] in others;
      forall i: nat | 1 <= i <= k + 1
        ensures Onward(ids, active, i) == others[i - 1]
      {
        OthersAt(ids, active, i);
      }
      assert FirstAt(ids, gated, active, others[k], k + 1);
    } else {
      assert forall x :: x !in Headroom(others, gated);
    }
  }

  /**
   * What a pick among two logins or more does. With headroom and time left it changes nothing; else
   * it moves to the next login with headroom and restarts the clock; and when no other has any it
   * stays, restarting the clock only if the time was up.
   */
  lemma PickMeaning(ids: seq<string>, gated: string -> bool, active: string, last: int, now: int, policy: Policy)
    requires Distinct(ids) && |ids| >= 2
    ensures var (id, clock) := Picked(ids, gated, active, last, now, policy);
            var timeUp := policy.rotateEvery.Some? && now - last >= policy.rotateEvery.value;
            && (!gated(active) && !timeUp ==> id == active && clock == last)
            && ((gated(active) || timeUp) && (exists x | x in ids :: x != active && !gated(x)) ==>
                  NextOpen(ids, gated, active, id) && clock == now)
            && ((gated(active) || timeUp) && (forall x | x in ids :: x == active || gated(x)) ==>
                  id == active && clock == if timeUp then now else last)
  {
    OpenIsNext(ids, gated, active);
  }

  /** The source's index search computes `Picked`. */
  method PickActiveToken(ids: seq<string>, states: Logins, active: string, last: int, now: int, policy: Policy)
    returns (id: string, clock: int)
    requires Distinct(ids)
    ensures (id, clock) == Picked(ids, GatedAt(states, now, policy.admitBelow), active, last, now, policy)
    ensures |ids| <= 1 ==> id == (if ids == [] then active else ids[0]) && clock == last
    ensures |ids| >= 2 ==>
              var gated := GatedAt(states, now, policy.admitBelow);
              var timeUp := policy.rotateEvery.Some? && now - last >= policy.rotateEvery.value;
              && (!gated(active) && !timeUp ==> id == active && clock == last)
              && ((gated(active) || timeUp) && (exists x | x in ids :: x != active && !gated(x)) ==>
                    NextOpen(ids, gated, active, id) && clock == now)
              && ((gated(active) || timeUp) && (forall x | x in ids :: x == active || gated(x)) ==>
                    id == active && clock == if timeUp then now else last)
  {
    if |ids| >= 2 {
      PickMeaning(ids, GatedAt(states, now, policy.admitBelow), active, last, now, policy);
    }
    if |ids| <= 1 {
      return if ids == [] then active else ids[0], last;
    }
    var gated := GatedAt(states, now, policy.admitBelow);
    var timerElapsed := TimerElapsed(policy, last, now);
    if !(gated(active) || timerElapsed) {
      return active, last;
    }
    id, clock := Search(ids, gated, active, last, now, timerElapsed);
  }

  /** The search proper: the first other login with headroom, one modular step at a time. */
  method Search(ids: seq<string>, gated: string -> bool, active: string, last: int, now: int, timerElapsed: bool)
    returns (id: string, clock: int)
    requires Distinct(ids)
    ensures var candidates := Headroom(Others(ids, active), gated);
            (id, clock) == if candidates != [] then (candidates[0], now)
                           else (active, if timerElapsed then now else last)
  {
    var start := IndexOf(ids, active);
    ghost var others := Others(ids, active);
    OthersMembers(ids, active);
    for i := 1 to |ids| + 1
      invariant forall k | 0 <= k < i - 1 && k < |others| :: gated(others[k])
    {
      var at := Remainder(start + i, |ids|);
      OthersAt(ids, active, i);
      var candidate := ids[at];
      if candidate != active && !gated(candidate) {
        FirstWithHeadroom(others, i - 1, gated);
        return candidate, now;
      }
    }
    NoHeadroom(others, gated);
    return active, if timerElapsed then now else last;
  }

  /** A pick never leaves the pool, and lands on a gated login only when every login is gated. */
  lemma PickFindsHeadroom(ids: seq<string>, gated: string -> bool, active: string, last: int, now: int, policy: Policy)
    requires ids != [] && Distinct(ids) && active in ids
    ensures var id := Picked(ids, gated, active, last, now, policy).0;
            id in ids && (gated(id) <==> forall x | x in ids :: gated(x))
  {
    OthersMembers(ids, active);
    var open := Headroom(Others(ids, active), gated);
    HeadroomMembers(Others(ids, active), gated);
    if open != [] {
      assert open[0] in open;
    } else {
      assert forall x :: x !in open;
    }
  }

  // ---------------------------------------------------------------- fairness

  /** One pick's surroundings: the clock and which logins are gated at that instant. */
  datatype Call = Call(now: int, gated: string -> bool)

  /** The logins successive picks bind, each starting from the last one's result. */
  function Rotate(ids: seq<string>, active: string, last: int, calls: seq<Call>, policy: Policy): seq<string>
    decreases calls
  {
    if calls == [] then []
    else
      var next := Picked(ids, calls[0].gated, active, last, calls[0].now, policy);
      [next.0] + Rotate(ids, next.0, next.1, calls[1..], policy)
  }

  /** However many picks are made, a login that keeps its headroom stays bound while the rotation time is not up. */
  lemma {:induction false} BindingStays(ids: seq<string>, active: string, last: int, calls: seq<Call>, policy: Policy)
    requires Distinct(ids) && active in ids
    requires forall c | c in calls :: !c.gated(active)
    requires policy.rotateEvery.Some? ==> forall c | c in calls :: c.now - last < policy.rotateEvery.value
    ensures |Rotate(ids, active, last, calls, policy)| == |calls|
    ensures forall id | id in Rotate(ids, active, last, calls, policy) :: id == active
    decreases calls
  {
    if calls != [] {
      var c := calls[0];
      assert c in calls;
      if |ids| >= 2 {
        PickMeaning(ids, c.gated, active, last, c.now, policy);
      }
      BindingStays(ids, active, last, calls[1..], policy);
    }
  }

  /** The rotation timer has run out at each call, counted from the one before. */
  predicate Spaced(last: int, calls: seq<Call>, policy: Policy)
    decreases calls
  {
    calls == [] || (TimerElapsed(policy, last, calls[0].now) && Spaced(calls[0].now, calls[1..], policy))
  }

  /** Every call sees the same logins with headroom. */
  ghost predicate SteadyHeadroom(ids: seq<string>, calls: seq<Call>, pool: seq<string>) {
    forall c | c in calls :: Headroom(ids, c.gated) == pool
  }

  lemma HeadroomAround(before: seq<string>, active: string, after: seq<string>, gated: string -> bool)
    requires !gated(active)
    ensures Headroom(before + [active] + after, gated) == Headroom(before, gated) + [active] + Headroom(after, gated)
  {
    HeadroomConcat(before + [active], after, gated);
    HeadroomConcat(before, [active], gated);
    assert Headroom([active], gated) == [active];
  }

  /** The pool splits around the active login as the configured order does. */
  lemma PoolAroundActive(ids: seq<string>, active: string, gated: string -> bool)
    requires Distinct(ids) && active in ids && !gated(active)
    ensures var start := IndexOf(ids, active);
            var before, after := Headroom(ids[..start], gated), Headroom(ids[start + 1..], gated);
            && Headroom(ids, gated) == before + [active] + after
            && Headroom(Others(ids, active), gated) == after + before
            && active !in before && active !in after
  {
    var start := IndexOf(ids, active);
    var before, after := ids[..start], ids[start + 1..];
    assert ids == before + [active] + after;
    HeadroomAround(before, active, after, gated);
    HeadroomConcat(after, before, gated);
    HeadroomMembers(before, gated);
    HeadroomMembers(after, gated);
  }

  /** A timed pick moves to the next login with headroom in cyclic order; gated logins are invisible. */
  lemma PickIsCyclicSuccessor(ids: seq<string>, gated: string -> bool, active: string, last: int, now: int, policy: Policy, j: nat)
    requires Distinct(ids) && TimerElapsed(policy, last, now)
    requires var pool := Headroom(ids, gated); |pool| >= 2 && j < |pool| && pool[j] == active
    ensures var pool := Headroom(ids, gated);
            Picked(ids, gated, active, last, now, policy) == (pool[Step(j, |pool|)], now)
  {
    var pool := Headroom(ids, gated);
    assert active in pool;
    HeadroomMembers(ids, gated);
    var start := IndexOf(ids, active);
    var before, after := Headroom(ids[..start], gated), Headroom(ids[start + 1..], gated);
    PoolAroundActive(ids, active, gated);
    assert j == |before|;
    if after != [] {
      assert pool[j + 1] == after[0];
    } else {
      assert pool[0] == before[0];
    }
  }

  /** However many timed picks are made, the k-th binds the login k + 1 places further round the pool. */
  lemma {:induction false} RotationWalksThePool(ids: seq<string>, active: string, last: int, calls: seq<Call>, policy: Policy,
      pool: seq<string>, j: nat, k: nat)
    requires Distinct(ids) && |pool| >= 2 && j < |pool| && pool[j] == active
    requires Spaced(last, calls, policy) && SteadyHeadroom(ids, calls, pool)
    requires k < |calls|
    ensures |Rotate(ids, active, last, calls, policy)| == |calls|
    ensures Rotate(ids, active, last, calls, policy)[k] == pool[Along(j, k + 1, |pool|)]
    decreases calls
  {
    var c, rest := calls[0], calls[1..];
    assert c in calls;
    PickIsCyclicSuccessor(ids, c.gated, active, last, c.now, policy, j);
    var j' := Step(j, |pool|);
    if rest != [] {
      RotationWalksThePool(ids, pool[j'], c.now, rest, policy, pool, j', if k == 0 then 0 else k - 1);
    }
  }

  /** One turn of timed picks reads off the pool from the place after the active login. */
  lemma OneTurn(ids: seq<string>, active: string, last: int, calls: seq<Call>, policy: Policy, pool: seq<string>, j: nat)
    requires Distinct(ids) && |pool| >= 2 && j < |pool| && pool[j] == active && |calls| == |pool|
    requires Spaced(last, calls, policy) && SteadyHeadroom(ids, calls, pool)
    ensures Rotate(ids, active, last, calls, policy) == pool[j + 1..] + pool[..j + 1]
  {
    var picks := Rotate(ids, active, last, calls, policy);
    var turned := pool[j + 1..] + pool[..j + 1];
    RotationWalksThePool(ids, active, last, calls, policy, pool, j, 0);
    forall k | 0 <= k < |pool|
      ensures picks[k] == turned[k]
    {
      RotationWalksThePool(ids, active, last, calls, policy, pool, j, k);
      WithinOneTurn(j, k + 1, |pool|);
    }
  }

  /**
   * Rotation wears logins evenly: as many timed picks as there are logins with headroom
   * bind each of them exactly once and end back on the login they started from, however
   * many gated logins stand between them.
   */
  lemma RotationIsFair(ids: seq<string>, active: string, last: int, calls: seq<Call>, policy: Policy, pool: seq<string>)
    requires Distinct(ids) && active in pool && |pool| >= 2 && |calls| == |pool|
    requires Spaced(last, calls, policy) && SteadyHeadroom(ids, calls, pool)
    ensures var picks := Rotate(ids, active, last, calls, policy);
            |picks| == |pool| && multiset(picks) == multiset(pool) && picks[|picks| - 1] == active
  {
    var j :| 0 <= j < |pool| && pool[j] == active;
    OneTurn(ids, active, last, calls, policy, pool, j);
    TurnedPool(pool, j);
  }

  lemma TurnedPool(pool: seq<string>, j: nat)
    requires j < |pool|
    ensures var turned := pool[j + 1..] + pool[..j + 1];
            |turned| == |pool| && multiset(turned) == multiset(pool) && turned[|turned| - 1] == pool[j]
  {
    assert pool == pool[..j + 1] + pool[j + 1..];
  }
}
