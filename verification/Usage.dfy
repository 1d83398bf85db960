/**
 * Plan usage state and the decisions taken on it: folding streamed rate-limit signals,
 * the admission gate, the reset estimate, and the choice of the active login.
 * Instants and durations are integer milliseconds; utilization is a percentage.
 */
module Usage {
  import opened Wrappers

  const DEFAULT_COOLDOWN_MS := 5 * 60 * 1000

  /** One plan window's last-known state; `None` is the source's unknown. */
  datatype Window = Window(kind: string, utilization: Option<real>, resetsAt: Option<int>)

  /** Windows in insertion order, at most one per kind, plus the account's cooldown. */
  datatype UsageState = UsageState(windows: seq<Window>, cooldownUntil: Option<int>)

  const EMPTY_USAGE := UsageState([], None)

  datatype SignalStatus = Allowed | AllowedWarning | Rejected

  /** A streamed signal; every field is optional, as on the wire. */
  datatype Signal = Signal(
    status: Option<SignalStatus>,
    utilization: Option<real>,
    resetsAt: Option<real>,
    kind: Option<string>)

  datatype Refusal = Cooldown(until: int) | Utilization(kind: string, percent: real)
  datatype GateResult = Admit | Refuse(reason: Refusal)

  function Max(a: int, b: int): int { if a < b then b else a }

  function OrElse<T>(a: Option<T>, b: Option<T>): Option<T> { if a.Some? then a else b }

  // ---------------------------------------------------------------- folding signals

  /** Seconds or milliseconds, told apart by magnitude, rounded half up to milliseconds. */
  function ResetToMs(epoch: Option<real>): Option<int> {
    match epoch
    case None => None
    case Some(e) =>
      if e < 1000000000000.0 then Some((e * 1000.0 + 0.5).Floor) else Some((e + 0.5).Floor)
  }

  function FindWindow(ws: seq<Window>, kind: string): (r: Option<Window>)
    ensures r.Some? ==> r.value in ws && r.value.kind == kind
    ensures r.None? ==> forall w | w in ws :: w.kind != kind
  {
    if ws == [] then None
    else if ws[0].kind == kind then Some(ws[0])
    else FindWindow(ws[1..], kind)
  }

  /** Replace the window of `w`'s kind where it stands, or append it. */
  function PutWindow(ws: seq<Window>, w: Window): seq<Window> {
    if ws == [] then [w]
    else if ws[0].kind == w.kind then [w] + ws[1..]
    else [ws[0]] + PutWindow(ws[1..], w)
  }

  /** What a signal naming window `kind` leaves as that window's state. */
  function FoldedWindow(prev: Option<Window>, signal: Signal, kind: string): Window {
    var atLimit := signal.status == Some(Rejected);
    var carried := if atLimit then Some(100.0) else if prev.Some? then prev.value.utilization else None;
    var carriedReset := if prev.Some? then prev.value.resetsAt else None;
    Window(kind, OrElse(signal.utilization, carried), OrElse(ResetToMs(signal.resetsAt), carriedReset))
  }

  function NamesWindow(signal: Signal): bool { signal.kind.Some? && signal.kind.value != "" }

  function RecordRateLimit(s: UsageState, signal: Signal, now: int): UsageState {
    var windows :=
      if NamesWindow(signal)
      then PutWindow(s.windows, FoldedWindow(FindWindow(s.windows, signal.kind.value), signal, signal.kind.value))
      else s.windows;
    var cooldown :=
      if signal.status == Some(Rejected) then
        var reset := ResetToMs(signal.resetsAt);
        Some(Max(if s.cooldownUntil.Some? then s.cooldownUntil.value else 0,
                 if reset.Some? then reset.value else now + DEFAULT_COOLDOWN_MS))
      else s.cooldownUntil;
    UsageState(windows, cooldown)
  }

  function TripCooldown(s: UsageState, until: Option<int>, now: int): UsageState {
    s.(cooldownUntil :=
      Some(Max(if s.cooldownUntil.Some? then s.cooldownUntil.value else 0,
               if until.Some? then until.value else now + DEFAULT_COOLDOWN_MS)))
  }

  // ---------------------------------------------------------------- the gate

  /** A window whose reset has not passed, or is unknown. */
  predicate Live(w: Window, now: int) { w.resetsAt.Some? ==> now < w.resetsAt.value }

  predicate AtThreshold(w: Window, threshold: real) {
    w.utilization.Some? && threshold <= w.utilization.value
  }

  predicate Gating(w: Window, now: int, threshold: real) { Live(w, now) && AtThreshold(w, threshold) }

  predicate CooldownActive(s: UsageState, now: int) {
    s.cooldownUntil.Some? && now < s.cooldownUntil.value
  }

  predicate SomeLive(s: UsageState, now: int) { exists w | w in s.windows :: Live(w, now) }

  predicate SomeGating(s: UsageState, now: int, threshold: real) {
    exists w | w in s.windows :: Gating(w, now, threshold)
  }

  /** When new agents may start: nothing at its limit, and no cooldown that nothing contradicts. */
  predicate Admits(s: UsageState, now: int, threshold: real) {
    !SomeGating(s, now, threshold) && (CooldownActive(s, now) ==> SomeLive(s, now))
  }

  /** The gate, one pass over the windows in order. */
  method UsageGate(s: UsageState, now: int, threshold: real) returns (r: GateResult)
    ensures r.Admit? <==> Admits(s, now, threshold)
    ensures r.Refuse? && r.reason.Cooldown? <==>
            CooldownActive(s, now) && (SomeGating(s, now, threshold) || !SomeLive(s, now))
    ensures r.Refuse? && r.reason.Cooldown? ==> s.cooldownUntil == Some(r.reason.until)
    ensures r.Refuse? && r.reason.Utilization? ==>
            exists i :: 0 <= i < |s.windows| && Gating(s.windows[i], now, threshold)
              && s.windows[i].kind == r.reason.kind && s.windows[i].utilization == Some(r.reason.percent)
              && forall j | 0 <= j < i :: !Gating(s.windows[j], now, threshold)
  {
    var gating: Option<Window> := None;
    ghost var at := 0;
    var liveWindows := 0;
    for i := 0 to |s.windows|
      invariant liveWindows == 0 <==> forall j | 0 <= j < i :: !Live(s.windows[j], now)
      invariant liveWindows >= 0
      invariant gating.None? ==> forall j | 0 <= j < i :: !Gating(s.windows[j], now, threshold)
      invariant gating.Some? ==>
                  0 <= at < i && gating == Some(s.windows[at]) && Gating(s.windows[at], now, threshold)
                  && forall j | 0 <= j < at :: !Gating(s.windows[j], now, threshold)
    {
      var w := s.windows[i];
      if w.resetsAt.Some? && w.resetsAt.value <= now {
        continue;
      }
      liveWindows := liveWindows + 1;
      if gating.None? && w.utilization.Some? && threshold <= w.utilization.value {
        gating := Some(w);
        at := i;
      }
    }
    assert SomeLive(s, now) <==> liveWindows > 0;
    assert gating.Some? ==> s.windows[at] in s.windows;
    if s.cooldownUntil.Some? && now < s.cooldownUntil.value && (liveWindows == 0 || gating.Some?) {
      return Refuse(Cooldown(s.cooldownUntil.value));
    }
    if gating.Some? {
      return Refuse(Utilization(gating.value.kind, gating.value.utilization.value));
    }
    return Admit;
  }

  // ---------------------------------------------------------------- the reset estimate

  /** The future instants the estimate is drawn from: the active cooldown and every gating window's reset. */
  predicate IsCandidate(s: UsageState, now: int, threshold: real, t: int) {
    now < t
    && (s.cooldownUntil == Some(t)
        || exists w | w in s.windows :: AtThreshold(w, threshold) && w.resetsAt == Some(t))
  }

  /** The least candidate, if there is one. */
  ghost predicate IsSoonestReset(s: UsageState, now: int, threshold: real, r: Option<int>) {
    match r
    case None => forall t :: !IsCandidate(s, now, threshold, t)
    case Some(m) => IsCandidate(s, now, threshold, m) && forall t :: IsCandidate(s, now, threshold, t) ==> m <= t
  }

  method SoonestReset(s: UsageState, now: int, threshold: real) returns (r: Option<int>)
    ensures IsSoonestReset(s, now, threshold, r) && (r.Some? ==> now < r.value)
  {
    r := None;
    if s.cooldownUntil.Some? && s.cooldownUntil.value > now {
      r := s.cooldownUntil;
    }
    for i := 0 to |s.windows|
      invariant r.Some? ==> IsCandidate(s, now, threshold, r.value)
      invariant CooldownActive(s, now) ==> r.Some? && r.value <= s.cooldownUntil.value
      invariant forall j | 0 <= j < i ::
                  (AtThreshold(s.windows[j], threshold) && s.windows[j].resetsAt.Some? && now < s.windows[j].resetsAt.value)
                  ==> (r.Some? && r.value <= s.windows[j].resetsAt.value)
    {
      var w := s.windows[i];
      if AtThreshold(w, threshold) && w.resetsAt.Some? && w.resetsAt.value > now {
        assert w in s.windows;
        r := if r.None? || w.resetsAt.value < r.value then w.resetsAt else r;
      }
    }
  }

  // ---------------------------------------------------------------- the gate over time

  /**
   * The estimate never promises too early: a login refused now stays refused at every
   * instant before it, and for good when there is no estimate.
   */
  lemma SoonestResetIsSound(s: UsageState, now: int, threshold: real, r: Option<int>, t: int)
    requires !Admits(s, now, threshold) && IsSoonestReset(s, now, threshold, r)
    requires now <= t && (r.Some? ==> t < r.value)
    ensures !Admits(s, t, threshold)
  {
    if SomeGating(s, now, threshold) {
      var w :| w in s.windows && Gating(w, now, threshold);
      if w.resetsAt.Some? {
        assert IsCandidate(s, now, threshold, w.resetsAt.value);
      }
      assert Gating(w, t, threshold);
    } else {
      assert IsCandidate(s, now, threshold, s.cooldownUntil.value);
      assert CooldownActive(s, t);
      assert !SomeLive(s, t);
    }
  }

  /**
   * When the estimate is exact: at the reported instant the gate admits if and only if every window
   * that gates now resets at that very instant, and a cooldown still running has a live window to
   * contradict it.
   */
  lemma SoonestResetIsExact(s: UsageState, now: int, threshold: real, m: int)
    requires IsSoonestReset(s, now, threshold, Some(m))
    ensures Admits(s, m, threshold) <==>
            && (forall w | w in s.windows && Gating(w, now, threshold) :: w.resetsAt == Some(m))
            && (CooldownActive(s, m) ==> SomeLive(s, m))
  {
    forall w | w in s.windows
      ensures Gating(w, m, threshold) <==> Gating(w, now, threshold) && w.resetsAt != Some(m)
    {
      if Gating(w, now, threshold) && w.resetsAt.Some? {
        assert IsCandidate(s, now, threshold, w.resetsAt.value);
      }
    }
  }

  /** The estimate is only a lower bound: with two limits standing the login is still refused when the first lifts. */
  lemma SoonestResetMayBeEarly()
    ensures var s := UsageState([Window("five_hour", Some(100.0), Some(10)), Window("seven_day", Some(100.0), Some(20))], None);
            !Admits(s, 0, 85.0) && IsSoonestReset(s, 0, 85.0, Some(10)) && !Admits(s, 10, 85.0)
  {
    var five, seven := Window("five_hour", Some(100.0), Some(10)), Window("seven_day", Some(100.0), Some(20));
    var s := UsageState([five, seven], None);
    assert s.windows[0] == five && s.windows[1] == seven;
    assert five in s.windows && seven in s.windows;
    assert Gating(seven, 0, 85.0) && Gating(seven, 10, 85.0);
    assert IsCandidate(s, 0, 85.0, 10);
  }

  /**
   * Between signals an admitting gate turns refusing exactly when a cooldown is still
   * running and every window has lapsed; some window was live before, and none is after.
   */
  lemma AdmitTurnsRefuse(s: UsageState, t1: int, t2: int, threshold: real)
    requires t1 <= t2 && Admits(s, t1, threshold)
    ensures !Admits(s, t2, threshold) <==> CooldownActive(s, t2) && !SomeLive(s, t2)
    ensures !Admits(s, t2, threshold) ==> SomeLive(s, t1)
  {
    forall w | w in s.windows && Live(w, t2) ensures Live(w, t1) {
    }
    assert !SomeGating(s, t2, threshold);
  }

  /** So the gate is not monotone in time: waiting can close it again with no signal arriving. */
  lemma GateIsNotMonotone()
    ensures var s := UsageState([Window("five_hour", Some(6.0), Some(10))], Some(20));
            Admits(s, 5, 85.0) && !Admits(s, 15, 85.0) && Admits(s, 20, 85.0)
  {
    var w := Window("five_hour", Some(6.0), Some(10));
    var s := UsageState([w], Some(20));
    assert s.windows[0] == w;
    assert w in s.windows && Live(w, 5);
    assert !SomeLive(s, 15);
  }

  /** The latest instant any at-threshold window or the cooldown lapses. */
  function Horizon(s: UsageState, threshold: real): int {
    Max(if s.cooldownUntil.Some? then s.cooldownUntil.value else 0, LatestReset(s.windows, threshold))
  }

  function LatestReset(ws: seq<Window>, threshold: real): int {
    if ws == [] then 0
    else if AtThreshold(ws[0], threshold) && ws[0].resetsAt.Some?
    then Max(ws[0].resetsAt.value, LatestReset(ws[1..], threshold))
    else LatestReset(ws[1..], threshold)
  }

  lemma {:induction false} LatestResetBounds(ws: seq<Window>, threshold: real, w: Window)
    requires w in ws && AtThreshold(w, threshold) && w.resetsAt.Some?
    ensures w.resetsAt.value <= LatestReset(ws, threshold)
  {
    if ws[0] != w {
      LatestResetBounds(ws[1..], threshold, w);
    }
  }

  /** An at-threshold window whose reset nobody knows. */
  predicate BlockedIndefinitely(s: UsageState, threshold: real) {
    exists w | w in s.windows :: AtThreshold(w, threshold) && w.resetsAt.None?
  }

  /** From the horizon on the gate admits for good, unless some at-threshold window has no known reset. */
  lemma AdmitsFromHorizon(s: UsageState, threshold: real, t: int)
    requires !BlockedIndefinitely(s, threshold) && Horizon(s, threshold) <= t
    ensures Admits(s, t, threshold)
  {
    forall w | w in s.windows ensures !Gating(w, t, threshold) {
      if AtThreshold(w, threshold) {
        LatestResetBounds(s.windows, threshold, w);
      }
    }
  }

  ghost predicate AdmitsForever(s: UsageState, threshold: real, from: int) {
    forall t :: from <= t ==> Admits(s, t, threshold)
  }

  /** Waiting alone eventually reopens the gate for good iff every limit has a known end. */
  lemma WaitingSuffices(s: UsageState, threshold: real)
    ensures (exists from :: AdmitsForever(s, threshold, from)) <==> !BlockedIndefinitely(s, threshold)
  {
    if !BlockedIndefinitely(s, threshold) {
      forall t | Horizon(s, threshold) <= t ensures Admits(s, t, threshold) {
        AdmitsFromHorizon(s, threshold, t);
      }
      assert AdmitsForever(s, threshold, Horizon(s, threshold));
    } else {
      var w :| w in s.windows && AtThreshold(w, threshold) && w.resetsAt.None?;
      forall from ensures !AdmitsForever(s, threshold, from) {
        assert Gating(w, from, threshold);
        assert !Admits(s, from, threshold);
      }
    }
  }

  // ---------------------------------------------------------------- what a signal does to the gate

  /** One window per kind, as the source's record keyed by kind has. */
  ghost predicate OnePerKind(ws: seq<Window>) {
    forall i, j | 0 <= i < j < |ws| :: ws[i].kind != ws[j].kind
  }

  /** Folding replaces the window of one kind, keeps every other, and leaves one per kind. */
  lemma {:induction false} PutWindowFacts(ws: seq<Window>, w: Window)
    requires OnePerKind(ws)
    ensures forall v :: v in PutWindow(ws, w) <==> v == w || (v in ws && v.kind != w.kind)
    ensures OnePerKind(PutWindow(ws, w))
  {
    if ws != [] {
      var first, rest := ws[0], ws[1..];
      assert ws == [first] + rest;
      assert forall v | v in rest :: v.kind != first.kind;
      if first.kind != w.kind {
        PutWindowFacts(rest, w);
        assert forall v | v in PutWindow(rest, w) :: v.kind != first.kind;
      }
    }
  }

  /** The window a signal on a named window leaves. */
  function NamedWindow(s: UsageState, signal: Signal): Window
    requires NamesWindow(signal)
  {
    FoldedWindow(FindWindow(s.windows, signal.kind.value), signal, signal.kind.value)
  }

  /** The window of a kind is found, there being one of each. */
  lemma FindsIts(ws: seq<Window>, w: Window)
    requires OnePerKind(ws) && w in ws
    ensures FindWindow(ws, w.kind) == Some(w)
  {
    var i :| 0 <= i < |ws| && ws[i] == w;
    var found := FindWindow(ws, w.kind).value;
    var j :| 0 <= j < |ws| && ws[j] == found;
    assert i == j;
  }

  /** Folding keeps every window in its place, and puts one of a new kind last. */
  lemma {:induction false} PutKeepsPlaces(ws: seq<Window>, w: Window)
    ensures var after := PutWindow(ws, w);
            && |after| == |ws| + (if exists v | v in ws :: v.kind == w.kind then 0 else 1)
            && (forall i | 0 <= i < |ws| :: after[i].kind == ws[i].kind)
            && (|after| > |ws| ==> after[|ws|] == w)
  {
    if ws != [] && ws[0].kind != w.kind {
      PutKeepsPlaces(ws[1..], w);
    }
  }

  /**
   * What a signal of any status leaves in the windows. The one it names holds the utilization it
   * reports, else full when it rejects, else what it held; and the reset it reports, else what it had.
   * Every other window stands, in its place, and a signal that names none changes none.
   */
  lemma SignalLeavesWindows(s: UsageState, signal: Signal, now: int)
    requires OnePerKind(s.windows)
    ensures var r := RecordRateLimit(s, signal, now);
            if signal.kind.None? || signal.kind == Some("") then r.windows == s.windows
            else
              && OnePerKind(r.windows)
              && (exists w | w in r.windows :: w.kind == signal.kind.value)
              && (forall w, v | w in r.windows && v in s.windows && w.kind == v.kind == signal.kind.value ::
                    && w.utilization == (if signal.utilization.Some? then signal.utilization
                                         else if signal.status == Some(Rejected) then Some(100.0) else v.utilization)
                    && w.resetsAt == (if signal.resetsAt.Some? then ResetToMs(signal.resetsAt) else v.resetsAt))
              && (forall w | w in r.windows && w.kind == signal.kind.value && (forall v | v in s.windows :: v.kind != w.kind) ::
                    && w.utilization == (if signal.utilization.Some? then signal.utilization
                                         else if signal.status == Some(Rejected) then Some(100.0) else None)
                    && w.resetsAt == ResetToMs(signal.resetsAt)
                    && r.windows[|r.windows| - 1] == w)
              && (forall v: Window | v.kind != signal.kind.value :: v in r.windows <==> v in s.windows)
              && (forall i | 0 <= i < |s.windows| :: i < |r.windows| && r.windows[i].kind == s.windows[i].kind)
  {
    if NamesWindow(signal) {
      var kind := signal.kind.value;
      var w := FoldedWindow(FindWindow(s.windows, kind), signal, kind);
      PutWindowFacts(s.windows, w);
      PutKeepsPlaces(s.windows, w);
      forall v | v in s.windows && v.kind == kind
        ensures FindWindow(s.windows, kind) == Some(v)
      {
        FindsIts(s.windows, v);
      }
    }
  }

  /** A rejection pauses to the reset it reports, else for five minutes, and never shortens; no other signal touches the pause. */
  lemma SignalLeavesCooldown(s: UsageState, signal: Signal, now: int)
    ensures var r, until := RecordRateLimit(s, signal, now).cooldownUntil, ResetToMs(signal.resetsAt);
            if signal.status != Some(Rejected) then r == s.cooldownUntil
            else PausedUntil(s.cooldownUntil, r, if until.Some? then until.value else now + 300000)
  {
  }

  /** A trip pauses until the instant it is given, else for five minutes, never shortens, and leaves the windows. */
  lemma TripLeaves(s: UsageState, until: Option<int>, now: int)
    ensures var r := TripCooldown(s, until, now);
            && r.windows == s.windows
            && PausedUntil(s.cooldownUntil, r.cooldownUntil, if until.Some? then until.value else now + 300000)
  {
  }

  /** The later of the pause that stood (or the epoch) and the one asked for. */
  predicate PausedUntil(before: Option<int>, after: Option<int>, asked: int) {
    var stood := if before.Some? then before.value else 0;
    after.Some? && stood <= after.value && asked <= after.value && after.value in {stood, asked}
  }

  /** A reset is a whole millisecond nearest the instant reported: in seconds up to the year 2001 in milliseconds, else in those. */
  lemma ResetMeaning(e: real)
    ensures var r := ResetToMs(Some(e));
            && r.Some?
            && (e < 1000000000000.0 ==> e * 1000.0 - 0.5 < r.value as real <= e * 1000.0 + 0.5)
            && (e >= 1000000000000.0 ==> e - 0.5 < r.value as real <= e + 0.5)
    ensures ResetToMs(None) == None
  {
  }

  /** Whether a window with this utilization and reset gates. */
  predicate Limits(utilization: Option<real>, reset: Option<int>, t: int, threshold: real) {
    utilization.Some? && utilization.value >= threshold && (reset.Some? ==> t < reset.value)
  }

  /** When the gate refuses with one window replaced: it gates, or another does, or a pause runs with none live. */
  lemma FoldedGates(ws: seq<Window>, w: Window, cooldown: Option<int>, t: int, threshold: real)
    requires OnePerKind(ws)
    ensures !Admits(UsageState(PutWindow(ws, w), cooldown), t, threshold) <==>
              || Gating(w, t, threshold)
              || (exists v | v in ws :: v.kind != w.kind && Gating(v, t, threshold))
              || (cooldown.Some? && t < cooldown.value && !Live(w, t) && forall v | v in ws && v.kind != w.kind :: !Live(v, t))
  {
    PutWindowFacts(ws, w);
    var r := PutWindow(ws, w);
    assert w in r && forall v | v in ws && v.kind != w.kind :: v in r;
  }

  /**
   * When the gate refuses after a signal that does not reject, exactly: the window it names is at its
   * limit with what it now holds, or another window gates, or a pause runs with no window live.
   */
  lemma AllowedGatesExactly(s: UsageState, signal: Signal, now: int, threshold: real, t: int, v: Option<Window>)
    requires signal.status != Some(Rejected) && signal.kind.Some? && signal.kind != Some("") && OnePerKind(s.windows)
    requires if v.Some? then v.value in s.windows && v.value.kind == signal.kind.value
             else forall w | w in s.windows :: w.kind != signal.kind.value
    ensures var used := if signal.utilization.Some? then signal.utilization else if v.Some? then v.value.utilization else None;
            var reset := if signal.resetsAt.Some? then ResetToMs(signal.resetsAt) else if v.Some? then v.value.resetsAt else None;
            !Admits(RecordRateLimit(s, signal, now), t, threshold) <==>
              || Limits(used, reset, t, threshold)
              || (exists w | w in s.windows :: w.kind != signal.kind.value && Gating(w, t, threshold))
              || (CooldownActive(s, t) && (reset.Some? && reset.value <= t)
                  && forall w | w in s.windows && w.kind != signal.kind.value :: !Live(w, t))
  {
    var w := NamedWindow(s, signal);
    if v.Some? {
      FindsIts(s.windows, v.value);
    }
    FoldedGates(s.windows, w, s.cooldownUntil, t, threshold);
  }

  /** A signal that neither rejects nor names a window changes nothing. */
  lemma NamelessAllowedChangesNothing(s: UsageState, signal: Signal, now: int)
    requires signal.status != Some(Rejected) && (signal.kind.None? || signal.kind == Some(""))
    ensures RecordRateLimit(s, signal, now) == s
  {
  }

  /** A rejection counts as at its limit unless it reports a utilization below the threshold. */
  predicate ReportsLimit(signal: Signal, threshold: real) {
    threshold <= if signal.utilization.Some? then signal.utilization.value else 100.0
  }

  /**
   * When a rejection on a named window parks its login, exactly: while that window is live, if it is
   * reported at its limit; whenever another window gates; and while the cooldown runs with no window
   * live at all.
   */
  lemma RejectionParksExactly(s: UsageState, signal: Signal, now: int, threshold: real, t: int)
    requires signal.status == Some(Rejected) && NamesWindow(signal) && OnePerKind(s.windows)
    ensures var r, w := RecordRateLimit(s, signal, now), NamedWindow(s, signal);
            !Admits(r, t, threshold) <==>
              || (Live(w, t) && ReportsLimit(signal, threshold))
              || (exists v | v in s.windows :: v.kind != w.kind && Gating(v, t, threshold))
              || (CooldownActive(r, t) && !Live(w, t) && forall v | v in s.windows && v.kind != w.kind :: !Live(v, t))
  {
    FoldedGates(s.windows, NamedWindow(s, signal), RecordRateLimit(s, signal, now).cooldownUntil, t, threshold);
  }

  /** When a rejection that names no window parks its login, exactly: its cooldown needs every window lapsed, or one gating. */
  lemma NamelessRejectionParksExactly(s: UsageState, signal: Signal, now: int, threshold: real, t: int)
    requires signal.status == Some(Rejected) && !NamesWindow(signal)
    ensures var r := RecordRateLimit(s, signal, now);
            !Admits(r, t, threshold) <==> SomeGating(s, t, threshold) || (CooldownActive(r, t) && !SomeLive(s, t))
  {
    assert RecordRateLimit(s, signal, now).windows == s.windows;
  }

  /** A rejection that reports a low utilization leaves the gate open, its cooldown notwithstanding. */
  lemma LowRejectionDoesNotPark()
    ensures var signal := Signal(Some(Rejected), Some(10.0), Some(5000000000000.0), Some("five_hour"));
            var s := RecordRateLimit(EMPTY_USAGE, signal, 0);
            CooldownActive(s, 0) && Admits(s, 0, 85.0)
  {
    var signal := Signal(Some(Rejected), Some(10.0), Some(5000000000000.0), Some("five_hour"));
    var w := Window("five_hour", Some(10.0), Some(5000000000000));
    assert ResetToMs(signal.resetsAt) == Some(5000000000000);
    var s := RecordRateLimit(EMPTY_USAGE, signal, 0);
    assert s.windows == [w];
    assert s.windows[0] in s.windows && Live(s.windows[0], 0);
  }

  /** So does one that names no window, while any window with headroom is live. */
  lemma NamelessRejectionDoesNotPark(w: Window, now: int)
    requires Live(w, now) && !AtThreshold(w, 85.0)
    ensures var r := RecordRateLimit(UsageState([w], None), Signal(Some(Rejected), None, None, None), now);
            CooldownActive(r, now) && Admits(r, now, 85.0)
  {
    var s := UsageState([w], None);
    NamelessRejectionParksExactly(s, Signal(Some(Rejected), None, None, None), now, 85.0, now);
    assert s.windows[0] in s.windows;
  }

  /** One step of a login's history. */
  datatype Event = Recorded(signal: Signal, at: int) | Tripped(until: Option<int>, at: int)

  function Apply(s: UsageState, e: Event): UsageState {
    match e
    case Recorded(signal, at) => RecordRateLimit(s, signal, at)
    case Tripped(until, at) => TripCooldown(s, until, at)
  }

  function ApplyAll(s: UsageState, es: seq<Event>): UsageState
    decreases es
  {
    if es == [] then s else ApplyAll(Apply(s, es[0]), es[1..])
  }

  /** Over any history a running cooldown is never shortened. */
  lemma {:induction false} CooldownOnlyExtends(s: UsageState, es: seq<Event>)
    requires s.cooldownUntil.Some?
    ensures ApplyAll(s, es).cooldownUntil.Some?
    ensures s.cooldownUntil.value <= ApplyAll(s, es).cooldownUntil.value
    decreases es
  {
    if es != [] {
      CooldownOnlyExtends(Apply(s, es[0]), es[1..]);
    }
  }
}
