/**
 The per-host circuit breaker (resilient/resilient.go) under any interleaving of
 concurrent calls, with results arriving long after they were admitted.
 */
module Breaker {
  import opened Options
  import opened Doubling
  import opened Clock

  datatype State = Closed | Open | HalfOpen

  datatype Config = Config(failures: nat, cooldown: int, maxCooldown: int)

  /** What withDefaults leaves: every setting positive. */
  predicate ValidConfig(c: Config) { c.failures >= 1 && c.cooldown >= 1 && c.maxCooldown >= 1 }

  /** One host's guarded fields. */
  datatype Fields = Fields(state: State, failures: nat, openUntil: int, probing: bool, cooldown: int)

  datatype Admission = Admission(probe: bool, retryAfter: int, allowed: bool)

  function Admit(f: Fields, now: int): (Fields, Admission) {
    match f.state
    case Closed => (f, Admission(false, 0, true))
    case Open =>
      if now < f.openUntil then (f, Admission(false, f.openUntil - now, false))
      else (f.(state := HalfOpen, probing := true), Admission(true, 0, true))
    case HalfOpen =>
      if f.probing then (f, Admission(false, SECOND, false))
      else (f.(probing := true), Admission(true, 0, true))
  }

  function Record(c: Config, f: Fields, failed: bool, probe: bool, now: int): Fields {
    if probe && failed then
      var cooldown := Min(f.cooldown * 2, c.maxCooldown);
      f.(cooldown := cooldown, state := Open, probing := false, openUntil := now + cooldown)
    else if probe then
      f.(state := Closed, probing := false, failures := 0, cooldown := c.cooldown)
    else if failed && f.state == Closed then
      if f.failures + 1 >= c.failures then f.(failures := f.failures + 1, state := Open, openUntil := now + f.cooldown)
      else f.(failures := f.failures + 1)
    else if !failed && f.state == Closed then f.(failures := 0)
    else f
  }

  function Abandon(f: Fields, probe: bool): Fields { if probe then f.(probing := false) else f }

  class HostBreaker {
    const c: Config
    var state: State
    var failures: nat
    var openUntil: int
    var probing: bool
    var cooldown: int

    constructor (c: Config)
      ensures this.c == c && AsFields() == Fresh(c)
    {
      this.c := c;
      state, failures, openUntil, probing, cooldown := Closed, 0, 0, false, c.cooldown;
    }

    function AsFields(): Fields reads this { Fields(state, failures, openUntil, probing, cooldown) }

    /** The last result says which change OnChange is told about. */
    method TryAdmit(now: int) returns (a: Admission, change: Option<(State, State)>)
      modifies this
      ensures (AsFields(), a) == Admit(old(AsFields()), now)
      ensures change == if old(state) == state then None else Some((old(state), state))
    {
      a, change := Admission(false, 0, false), None;
      match state
      case Closed => a := Admission(false, 0, true);
      case Open =>
        if now < openUntil {
          a := Admission(false, openUntil - now, false);
        } else {
          state, probing := HalfOpen, true;
          a, change := Admission(true, 0, true), Some((Open, HalfOpen));
        }
      case HalfOpen =>
        if probing {
          a := Admission(false, SECOND, false);
        } else {
          probing := true;
          a := Admission(true, 0, true);
        }
    }

    method Fold(failed: bool, probe: bool, now: int) returns (change: Option<(State, State)>)
      requires probe ==> state == HalfOpen
      modifies this
      ensures AsFields() == Record(c, old(AsFields()), failed, probe, now)
      ensures change == if old(state) == state then None else Some((old(state), state))
    {
      change := None;
      if probe && failed {
        cooldown := Min(cooldown * 2, c.maxCooldown);
        state, probing, openUntil := Open, false, now + cooldown;
        change := Some((HalfOpen, Open));
      } else if probe {
        state, probing, failures, cooldown := Closed, false, 0, c.cooldown;
        change := Some((HalfOpen, Closed));
      } else if failed && state == Closed {
        failures := failures + 1;
        if failures >= c.failures {
          state, openUntil := Open, now + cooldown;
          change := Some((Closed, Open));
        }
      } else if !failed && state == Closed {
        failures := 0;
      }
    }

    method GiveUp(probe: bool)
      modifies this`probing
      ensures AsFields() == Abandon(old(AsFields()), probe)
    {
      if !probe { return; }
      probing := false;
    }
  }

  // ---- Concurrent calls ------------------------------------------------------------------

  datatype Outcome = Succeeded | FailedCall | Canceled

  /**
   `calls` maps each call in flight to whether it is the probe; `failedProbes`
   counts since the circuit last closed, `recent` holds the outcomes counted
   since then while it was closed; `openedAt` is when it last opened.
   */
  datatype System = System(
    f: Fields, now: int, calls: map<nat, bool>, failedProbes: nat, recent: seq<bool>, openedAt: int)

  datatype Step = Tick(d: nat) | Call(p: nat) | End(p: nat, outcome: Outcome)

  function Do(c: Config, s: System, step: Step): Option<System> {
    match step
    case Tick(d) => Some(s.(now := s.now + d))
    case Call(p) =>
      if p in s.calls then None
      else
        var (f, a) := Admit(s.f, s.now);
        Some(s.(f := f, calls := if a.allowed then s.calls[p := a.probe] else s.calls))
    case End(p, outcome) =>
      if p !in s.calls then None
      else
        var probe := s.calls[p];
        var s' := s.(calls := s.calls - {p});
        if outcome == Canceled then Some(s'.(f := Abandon(s.f, probe)))
        else
          var failed := outcome == FailedCall;
          var f := Record(c, s.f, failed, probe, s.now);
          Some(s'.(f := f, openedAt := if f.state == Open && s.f.state != Open then s.now else s.openedAt,
                   failedProbes := if !probe then s.failedProbes else if failed then s.failedProbes + 1 else 0,
                   recent := if probe then [] else if s.f.state == Closed then s.recent + [failed] else s.recent))
  }

  function Fresh(c: Config): Fields { Fields(Closed, 0, 0, false, c.cooldown) }

  function Run(c: Config, steps: seq<Step>): Option<System> {
    if steps == [] then Some(System(Fresh(c), 0, map[], 0, [], 0))
    else
      var before := Run(c, steps[..|steps| - 1]);
      if before.None? then None else Do(c, before.value, steps[|steps| - 1])
  }

  /** How many outcomes at the end are failures. */
  function Streak(outcomes: seq<bool>): nat {
    if outcomes == [] || !outcomes[|outcomes| - 1] then 0 else 1 + Streak(outcomes[..|outcomes| - 1])
  }

  /** The cooldown after n failed probes in a row. */
  function Cooldown(c: Config, n: nat): int {
    if n == 0 then c.cooldown else Capped(c.cooldown, n, c.maxCooldown)
  }

  lemma CooldownDoubles(c: Config, n: nat)
    requires ValidConfig(c)
    ensures Min(Cooldown(c, n) * 2, c.maxCooldown) == Cooldown(c, n + 1)
  {
    CappedDoubles(c.cooldown, n, c.maxCooldown);
    assert Capped(c.cooldown, 0, c.maxCooldown) == Min(c.cooldown, c.maxCooldown);
  }

  ghost predicate ProbeInv(s: System) {
    && (s.f.probing <==> exists p :: p in s.calls && s.calls[p])
    && (forall p, q :: p in s.calls && q in s.calls && s.calls[p] && s.calls[q] ==> p == q)
    && (s.f.probing ==> s.f.state == HalfOpen)
  }

  ghost predicate CountInv(c: Config, s: System) {
    && (s.f.state == Closed ==> s.f.failures < c.failures && s.failedProbes == 0 && s.f.failures == Streak(s.recent))
    && (s.f.state != Closed && s.failedProbes == 0 ==> Streak(s.recent) == c.failures)
    && s.f.cooldown == Cooldown(c, s.failedProbes)
    && (s.f.state == Open ==> s.openedAt <= s.now && s.f.openUntil == s.openedAt + Cooldown(c, s.failedProbes))
  }

  lemma ProbeKept(c: Config, s: System, step: Step)
    requires ProbeInv(s) && Do(c, s, step).Some?
    ensures ProbeInv(Do(c, s, step).value)
  {
    var s' := Do(c, s, step).value;
    match step
    case Tick(_) =>
    case Call(p) =>
      if s'.calls != s.calls { assert p in s'.calls; }
    case End(p, _) =>
      if s.f.probing {
        var q :| q in s.calls && s.calls[q];
        if p != q { assert q in s'.calls && s'.calls[q]; }
      }
  }

  lemma CountKept(c: Config, s: System, step: Step)
    requires ValidConfig(c) && ProbeInv(s) && CountInv(c, s) && Do(c, s, step).Some?
    ensures CountInv(c, Do(c, s, step).value)
  {
    CooldownDoubles(c, s.failedProbes);
    if step.End? {
      var failed := step.outcome == FailedCall;
      assert (s.recent + [failed])[..|s.recent|] == s.recent;
    }
  }

  lemma {:induction false} RunKeepsInv(c: Config, steps: seq<Step>)
    requires ValidConfig(c) && Run(c, steps).Some?
    ensures ProbeInv(Run(c, steps).value) && CountInv(c, Run(c, steps).value)
  {
    if steps != [] {
      RunKeepsInv(c, steps[..|steps| - 1]);
      ProbeKept(c, Run(c, steps[..|steps| - 1]).value, steps[|steps| - 1]);
      CountKept(c, Run(c, steps[..|steps| - 1]).value, steps[|steps| - 1]);
    }
  }

  /** At most one probe is outstanding; `probing` says exactly whether one is, and only half-open. */
  lemma OneProbe(c: Config, steps: seq<Step>)
    requires ValidConfig(c) && Run(c, steps).Some?
    ensures ProbeInv(Run(c, steps).value)
  {
    RunKeepsInv(c, steps);
  }

  /** After n failed probes since the last close the cooldown is Cooldown·2^n capped at MaxCooldown. */
  lemma CooldownLaw(c: Config, steps: seq<Step>)
    requires ValidConfig(c) && Run(c, steps).Some?
    ensures var s := Run(c, steps).value;
            && (c.cooldown <= c.maxCooldown ==> s.f.cooldown == Capped(c.cooldown, s.failedProbes, c.maxCooldown))
            && (s.failedProbes > 0 ==> s.f.cooldown == Capped(c.cooldown, s.failedProbes, c.maxCooldown))
            && (s.f.state == Open ==> s.openedAt <= s.now && s.f.openUntil == s.openedAt + s.f.cooldown)
  {
    RunKeepsInv(c, steps);
  }

  /**
   The circuit is closed exactly while the counted outcomes end in fewer
   failures than the threshold and no probe failed since.
   */
  lemma OpensOnStreak(c: Config, steps: seq<Step>)
    requires ValidConfig(c) && Run(c, steps).Some?
    ensures var s := Run(c, steps).value;
            s.f.state == Closed <==> s.failedProbes == 0 && Streak(s.recent) < c.failures
  {
    RunKeepsInv(c, steps);
  }

  /** A call is refused exactly while the circuit cools down or another call is probing. */
  lemma RefusedExactly(c: Config, steps: seq<Step>)
    requires ValidConfig(c) && Run(c, steps).Some?
    ensures var s := Run(c, steps).value;
            !Admit(s.f, s.now).1.allowed <==>
              (s.f.state == Open && s.now < s.f.openUntil) || exists p :: p in s.calls && s.calls[p]
  {
    RunKeepsInv(c, steps);
  }

  /**
   What a call meets. Closed, it is let through. After the circuit opened, it
   is refused until Cooldown·2^n (capped) has passed since, with exactly the
   time left, and the first call from then on is let through as the probe; while
   a probe is out every other call is refused, and if it was given up the next
   call probes.
   */
  lemma WhatACallMeets(c: Config, steps: seq<Step>)
    requires ValidConfig(c) && Run(c, steps).Some?
    ensures var s := Run(c, steps).value;
            var a, left := Admit(s.f, s.now).1, s.openedAt + Cooldown(c, s.failedProbes) - s.now;
            match s.f.state
            case Closed => a == Admission(false, 0, true)
            case Open => a == if left > 0 then Admission(false, left, false) else Admission(true, 0, true)
            case HalfOpen =>
              if exists p :: p in s.calls && s.calls[p] then a == Admission(false, SECOND, false)
              else a == Admission(true, 0, true)
  {
    RunKeepsInv(c, steps);
  }

  /** The state moves only so: opened by a result, half-open by an admission, closed by a probe that succeeded. */
  lemma HowStatesChange(c: Config, steps: seq<Step>, step: Step)
    requires ValidConfig(c) && Run(c, steps).Some? && Do(c, Run(c, steps).value, step).Some?
    ensures var s, s' := Run(c, steps).value, Do(c, Run(c, steps).value, step).value;
            && (s'.f.state == Open && s.f.state != Open <==>
                 && step.End? && step.outcome == FailedCall
                 && (s.calls[step.p] || (s.f.state == Closed && Streak(s.recent) + 1 == c.failures)))
            && (s'.f.state == HalfOpen && s.f.state != HalfOpen <==>
                 step.Call? && s.f.state == Open && s.now >= s.openedAt + Cooldown(c, s.failedProbes))
            && (s'.f.state == Closed && s.f.state != Closed <==>
                 step.End? && step.outcome == Succeeded && s.calls[step.p])
            && (s'.f.state == Open && s.f.state != Open ==> s'.openedAt == s.now)
  {
    RunKeepsInv(c, steps);
  }

  /** With no probe outstanding, waiting a full cooldown always gets a call through. */
  lemma NeverStuck(c: Config, steps: seq<Step>, wait: nat, p: nat)
    requires ValidConfig(c) && Run(c, steps).Some?
    requires var s := Run(c, steps).value;
             wait >= s.f.cooldown && p !in s.calls && forall q :: q in s.calls ==> !s.calls[q]
    ensures var s := Do(c, Run(c, steps).value, Tick(wait)).value;
            Do(c, s, Call(p)).Some? && p in Do(c, s, Call(p)).value.calls
  {
    RunKeepsInv(c, steps);
  }

  /** A refused caller is told how long to wait, and while the circuit cools down that wait is exact. */
  lemma RetryAfterIsExact(c: Config, steps: seq<Step>, wait: nat)
    requires ValidConfig(c) && Run(c, steps).Some?
    ensures var s := Run(c, steps).value;
            var a := Admit(s.f, s.now).1;
            !a.allowed ==>
              && a.retryAfter > 0
              && (s.f.state == Open ==> (Admit(s.f, s.now + wait).1.allowed <==> wait >= a.retryAfter))
              && (s.f.state == Open ==> a.retryAfter <= s.f.cooldown)
  {
    RunKeepsInv(c, steps);
  }
}
