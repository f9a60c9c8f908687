/**
 "N failures, then blocked for a while" (ratelimit/lockout.go) over the
 in-memory counter. Fail, Reset and Unblock are sequences of counter calls, so
 runs interleave those calls, not whole methods.
 */
module Lockout {
  import opened Options
  import opened Counter

  datatype Config = Config(prefix: string, threshold: int, window: int, blockFor: int)

  function FailKey(c: Config, id: string): string { "rl:" + "lockout:fail:" + c.prefix + ":" + id }

  function BlockKey(c: Config, id: string): string { "rl:" + "lockout:block:" + c.prefix + ":" + id }

  /** Failure counts and blocks never share a key, and ids never share either. */
  lemma KeysApart(c: Config, a: string, b: string)
    ensures FailKey(c, a) != BlockKey(c, b)
    ensures a != b ==> FailKey(c, a) != FailKey(c, b) && BlockKey(c, a) != BlockKey(c, b)
  {
    assert FailKey(c, a)[11] == 'f' && BlockKey(c, b)[11] == 'b';
    var f, k := |"rl:" + "lockout:fail:" + c.prefix + ":"|, |"rl:" + "lockout:block:" + c.prefix + ":"|;
    assert FailKey(c, a)[f..] == a && FailKey(c, b)[f..] == b && BlockKey(c, a)[k..] == a && BlockKey(c, b)[k..] == b;
  }

  // ---- The guard itself -----------------------------------------------------------------------

  class Guard {
    const c: Config
    const store: MemoryCounter
    const failClosed: bool

    constructor (c: Config, store: MemoryCounter, failClosed: bool)
      ensures this.c == c && this.store == store && this.failClosed == failClosed
    {
      this.c, this.store, this.failClosed := c, store, failClosed;
    }

    /**
     Deny with the remaining block time. A store that cannot count follows the
     fail mode; one that only cannot tell the time left (`ttlBroken`) still denies.
     */
    method Check(id: string, now: int, later: int, broken: bool, ttlBroken: bool)
      returns (out: Outcome, retryAfter: int)
      requires now <= later
      ensures broken ==> out == (if failClosed then Unavailable else Allow) && retryAfter == 0
      ensures !broken ==> (out == Deny <==> Count(store.entries, BlockKey(c, id), now) > 0) && out != Unavailable
      ensures out == Allow ==> retryAfter == 0
      ensures !broken && out == Deny ==>
                var left := TTL(store.entries, BlockKey(c, id), later);
                retryAfter == if !ttlBroken && left > 0 then left else c.blockFor
    {
      if broken { return if failClosed then Unavailable else Allow, 0; }
      var n := store.Read(BlockKey(c, id), now);
      if n == 0 { return Allow, 0; }
      var ttl := 0;
      if !ttlBroken { ttl := store.Left(BlockKey(c, id), later); }
      if ttl <= 0 { ttl := c.blockFor; }
      return Deny, ttl;
    }

    /** Count, and from the threshold on set the block; each increment has its own clock readings and may fail. */
    method Fail(id: string, now: int, later: int, broken: bool, blockNow: int, blockLater: int, blockBroken: bool)
      returns (blocked: bool, err: bool)
      modifies store
      ensures var (t, n) := Incr(old(store.entries), FailKey(c, id), c.window, now, later);
              && (broken ==> err && !blocked && store.entries == old(store.entries))
              && (!broken && n < c.threshold ==> !err && !blocked && store.entries == t)
              && (!broken && n >= c.threshold ==>
                    && err == blockBroken && blocked == !err
                    && store.entries == if err then t else Incr(t, BlockKey(c, id), c.blockFor, blockNow, blockLater).0)
    {
      if broken { return false, true; }
      var n := store.Increment(FailKey(c, id), c.window, now, later);
      if n < c.threshold { return false, false; }
      if blockBroken { return false, true; }
      var _ := store.Increment(BlockKey(c, id), c.blockFor, blockNow, blockLater);
      return true, false;
    }

    method Reset(id: string)
      modifies store
      ensures store.entries == old(store.entries) - {FailKey(c, id)}
    {
      store.Delete(FailKey(c, id));
    }

    method Unblock(id: string)
      modifies store
      ensures store.entries == old(store.entries) - {BlockKey(c, id), FailKey(c, id)}
    {
      store.Delete(BlockKey(c, id));
      store.Delete(FailKey(c, id));
    }
  }

  // ---- Interleaved runs ---------------------------------------------------------------------------

  /** A failure that was counted: by which step of the run, and when. */
  datatype Failure = Failure(step: nat, at: int)

  type Failures = seq<Failure>

  /** A call of Fail that counted up to the threshold and has yet to set the block. */
  datatype Due = Due(id: string, cause: Failures)

  /** A block: when it began, and the failures it answers. */
  datatype Block = Block(begun: int, cause: Failures)

  /**
   `recent` holds, per id, the failures since its current window opened or it
   was reset; `blocks` its latest block, unless lifted; `taken` counts steps.
   None of the three looks at the store.
   */
  datatype System = System(now: int, taken: nat, t: Entries, due: map<nat, Due>, recent: map<string, Failures>,
    blocks: map<string, Block>)

  datatype Step =
    | Tick(d: nat)
    | CountFailure(p: nat, id: string, d: nat)
    | SetBlock(p: nat, d: nat)
    | ResetCount(id: string)
    | LiftBlock(id: string)

  function Recent(s: System, id: string): Failures { if id in s.recent then s.recent[id] else [] }

  /** The first failure opens a window, and so does the first after a window is over. */
  predicate OpensWindow(c: Config, s: System, id: string) {
    Recent(s, id) == [] || s.now > Recent(s, id)[0].at + c.window
  }

  /** The failures of the window in force once one more is counted. */
  function WithOneMore(c: Config, s: System, id: string, later: int): Failures {
    if OpensWindow(c, s, id) then [Failure(s.taken, later)] else Recent(s, id) + [Failure(s.taken, s.now)]
  }

  /** A block of `id` began no more than BlockFor ago and was not lifted. */
  predicate InForce(c: Config, s: System, id: string) {
    id in s.blocks && s.now <= s.blocks[id].begun + c.blockFor
  }

  function Do(c: Config, s: System, step: Step): Option<System> {
    match step
    case Tick(d) => Some(s.(taken := s.taken + 1, now := s.now + d))
    case CountFailure(p, id, d) =>
      if p in s.due then None
      else
        var later := s.now + d;
        var (t, n) := Incr(s.t, FailKey(c, id), c.window, s.now, later);
        var failures := WithOneMore(c, s, id, later);
        Some(s.(taken := s.taken + 1, now := later, t := t, recent := s.recent[id := failures],
                due := if n >= c.threshold then s.due[p := Due(id, failures)] else s.due))
    case SetBlock(p, d) =>
      if p !in s.due then None
      else
        var id, later := s.due[p].id, s.now + d;
        Some(s.(taken := s.taken + 1, now := later, due := s.due - {p},
                t := Incr(s.t, BlockKey(c, id), c.blockFor, s.now, later).0,
                blocks := if InForce(c, s, id) then s.blocks else s.blocks[id := Block(later, s.due[p].cause)]))
    case ResetCount(id) =>
      Some(s.(taken := s.taken + 1, t := s.t - {FailKey(c, id)}, recent := s.recent - {id}))
    case LiftBlock(id) =>
      Some(s.(taken := s.taken + 1, t := s.t - {BlockKey(c, id)}, blocks := s.blocks - {id}))
  }

  const START := System(0, 0, map[], map[], map[], map[])

  function Run(c: Config, steps: seq<Step>): Option<System> {
    if steps == [] then Some(START)
    else
      var before := Run(c, steps[..|steps| - 1]);
      if before.None? then None else Do(c, before.value, steps[|steps| - 1])
  }

  /** What Check answers: the id is denied. */
  predicate Blocked(c: Config, s: System, id: string) { Count(s.t, BlockKey(c, id), s.now) > 0 }

  // ---- A block is neither extended nor lifted early ---------------------------------------------------

  /** The store holds the block, with the expiry it was born with. */
  predicate BlockInv(c: Config, s: System, id: string) {
    && (BlockKey(c, id) in s.t <==> id in s.blocks)
    && (id in s.blocks ==>
          && s.t[BlockKey(c, id)].expires == s.blocks[id].begun + c.blockFor
          && s.t[BlockKey(c, id)].n > 0 && s.blocks[id].begun <= s.now)
  }

  lemma BlockKept(c: Config, s: System, step: Step, id: string)
    requires BlockInv(c, s, id) && Do(c, s, step).Some?
    ensures BlockInv(c, Do(c, s, step).value, id)
    ensures Blocked(c, s, id) && step != LiftBlock(id) ==>
              var s' := Do(c, s, step).value;
              && id in s'.blocks && s'.blocks[id] == s.blocks[id]
              && (Blocked(c, s', id) <==> s'.now <= s.blocks[id].begun + c.blockFor)
  {
    match step
    case Tick(_) =>
    case CountFailure(_, other, _) => KeysApart(c, other, id);
    case SetBlock(p, _) => KeysApart(c, s.due[p].id, id);
    case ResetCount(other) => KeysApart(c, other, id);
    case LiftBlock(other) => KeysApart(c, other, id);
  }

  lemma {:induction false} BlocksHold(c: Config, steps: seq<Step>, id: string)
    requires Run(c, steps).Some?
    ensures BlockInv(c, Run(c, steps).value, id)
  {
    if steps != [] {
      BlocksHold(c, steps[..|steps| - 1], id);
      BlockKept(c, Run(c, steps[..|steps| - 1]).value, steps[|steps| - 1], id);
    }
  }

  /**
   A block in force after the first n steps denies until its BlockFor is over
   and begins no later than it did: further failures do not extend it and a
   reset does not lift it. Only LiftBlock, the first half of Unblock, ends it early.
   */
  lemma {:induction false} BlockLastsExactly(c: Config, steps: seq<Step>, n: nat, id: string)
    requires n <= |steps| && Run(c, steps).Some? && Run(c, steps[..n]).Some?
    requires Blocked(c, Run(c, steps[..n]).value, id) && id in Run(c, steps[..n]).value.blocks
    requires forall i :: n <= i < |steps| ==> steps[i] != LiftBlock(id)
    requires Run(c, steps).value.now <= Run(c, steps[..n]).value.blocks[id].begun + c.blockFor
    ensures var s, s' := Run(c, steps[..n]).value, Run(c, steps).value;
            Blocked(c, s', id) && id in s'.blocks && s'.blocks[id] == s.blocks[id]
    decreases |steps| - n
  {
    if n == |steps| {
      assert steps[..n] == steps;
    } else {
      var init, last := steps[..|steps| - 1], steps[|steps| - 1];
      assert init[..n] == steps[..n];
      BlocksHold(c, init, id);
      BlockLastsExactly(c, init, n, id);
      BlockKept(c, Run(c, init).value, last, id);
    }
  }

  /**
   Check denies exactly while a block that was not lifted began no more than
   BlockFor ago, for the time left of it.
   */
  lemma DeniedIffWithinBlock(c: Config, steps: seq<Step>, id: string)
    requires Run(c, steps).Some?
    ensures var s := Run(c, steps).value;
            && (Blocked(c, s, id) <==> InForce(c, s, id))
            && (InForce(c, s, id) ==>
                  s.blocks[id].begun <= s.now &&
                    TTL(s.t, BlockKey(c, id), s.now) == s.blocks[id].begun + c.blockFor - s.now)
  {
    BlocksHold(c, steps, id);
  }

  // ---- No block without enough failures in one window ---------------------------------------------------

  /** A step of this run counted a failure of `id`, at that time. */
  predicate Happened(c: Config, steps: seq<Step>, id: string, f: Failure) {
    && f.step < |steps| && steps[f.step].CountFailure? && steps[f.step].id == id
    && Run(c, steps[..f.step]).Some?
    && f.at in {Run(c, steps[..f.step]).value.now, Run(c, steps[..f.step]).value.now + steps[f.step].d}
  }

  /** Different failures of `id`, oldest first, not later than `end`. */
  ghost predicate Occurred(c: Config, steps: seq<Step>, id: string, f: Failures, end: int) {
    && (forall i :: 0 <= i < |f| ==> Happened(c, steps, id, f[i]) && f[i].at <= end)
    && (forall i, j :: 0 <= i < j < |f| ==> f[i].step < f[j].step)
  }

  /** No reset of `id` from its first failure up to step n. */
  predicate Unreset(steps: seq<Step>, id: string, f: Failures, n: nat)
    requires n <= |steps|
  {
    f != [] ==> forall j :: f[0].step <= j < n ==> steps[j] != ResetCount(id)
  }

  /** At least Threshold failures of `id`, all within one window's length, none reset, none after the block. */
  ghost predicate Earned(c: Config, steps: seq<Step>, id: string, f: Failures, end: int) {
    && Enough(c, f) && Occurred(c, steps, id, f, end)
    && (f != [] ==> Unreset(steps, id, f, f[|f| - 1].step))
  }

  predicate Enough(c: Config, f: Failures) {
    |f| >= c.threshold && forall i, j :: 0 <= i < |f| && 0 <= j < |f| ==> f[i].at - f[j].at <= c.window
  }

  /** The count in the store is the number of failures of its window, and they fit in it. */
  predicate Windowed(c: Config, steps: seq<Step>, s: System, id: string)
    requires FailKey(c, id) in s.t && Recent(s, id) != []
  {
    var e, f := s.t[FailKey(c, id)], Recent(s, id);
    && e == Entry(|f|, f[0].at + c.window) && f[0].at <= s.now
    && (forall i :: 0 <= i < |f| ==> f[0].at <= f[i].at <= e.expires)
    && Unreset(steps, id, f, |steps|)
  }

  ghost predicate CountInv(c: Config, steps: seq<Step>, s: System, id: string) {
    && (FailKey(c, id) in s.t <==> Recent(s, id) != [])
    && (Recent(s, id) != [] ==> Windowed(c, steps, s, id) && Occurred(c, steps, id, Recent(s, id), s.now))
  }

  ghost predicate Inv(c: Config, steps: seq<Step>, s: System) {
    && s.taken == |steps|
    && (forall id :: CountInv(c, steps, s, id))
    && (forall p :: p in s.due ==> Earned(c, steps, s.due[p].id, s.due[p].cause, s.now))
    && (forall id :: id in s.blocks ==> Earned(c, steps, id, s.blocks[id].cause, s.blocks[id].begun))
  }

  lemma HappenedStays(c: Config, steps: seq<Step>, step: Step, id: string, f: Failure)
    requires Happened(c, steps, id, f)
    ensures Happened(c, steps + [step], id, f)
  {
    assert (steps + [step])[..f.step] == steps[..f.step];
  }

  lemma OccurredStays(c: Config, steps: seq<Step>, step: Step, id: string, f: Failures, end: int, later: int)
    requires Occurred(c, steps, id, f, end) && end <= later
    ensures Occurred(c, steps + [step], id, f, later)
  {
    forall i | 0 <= i < |f| ensures Happened(c, steps + [step], id, f[i]) && f[i].at <= later {
      HappenedStays(c, steps, step, id, f[i]);
    }
  }

  lemma EarnedStays(c: Config, steps: seq<Step>, step: Step, id: string, f: Failures, end: int, later: int)
    requires Earned(c, steps, id, f, end) && end <= later
    ensures Earned(c, steps + [step], id, f, later)
  {
    OccurredStays(c, steps, step, id, f, end, later);
    if f != [] { assert Happened(c, steps, id, f[|f| - 1]); }
  }

  /** One more failure, counted by the step that is taken now. */
  lemma OccurredMore(c: Config, steps: seq<Step>, step: Step, id: string, f: Failures, s: System, at: int)
    requires Run(c, steps) == Some(s) && s.taken == |steps| && Occurred(c, steps, id, f, s.now)
    requires step.CountFailure? && step.id == id && at in {s.now, s.now + step.d}
    ensures Occurred(c, steps + [step], id, f + [Failure(s.taken, at)], s.now + step.d)
  {
    var more, last := steps + [step], Failure(s.taken, at);
    assert more[..|steps|] == steps;
    OccurredStays(c, steps, step, id, f, s.now, s.now + step.d);
    assert Happened(c, more, id, last);
    forall i | 0 <= i < |f| ensures f[i].step < last.step { assert Happened(c, steps, id, f[i]); }
  }

  lemma CountKept(c: Config, steps: seq<Step>, s: System, step: Step, id: string)
    requires c.window >= 0 && Run(c, steps) == Some(s) && s.taken == |steps|
    requires CountInv(c, steps, s, id) && Do(c, s, step).Some?
    ensures CountInv(c, steps + [step], Do(c, s, step).value, id)
  {
    var s' := Do(c, s, step).value;
    match step
    case Tick(_) => Untouched(c, steps, s, step, s', id);
    case CountFailure(_, other, d) =>
      KeysApart(c, other, id);
      if other == id { FailureKept(c, steps, s, step, id); } else { Untouched(c, steps, s, step, s', id); }
    case SetBlock(p, _) =>
      KeysApart(c, id, s.due[p].id);
      Untouched(c, steps, s, step, s', id);
    case ResetCount(other) =>
      KeysApart(c, other, id);
      if other != id { Untouched(c, steps, s, step, s', id); }
    case LiftBlock(other) =>
      KeysApart(c, id, other);
      Untouched(c, steps, s, step, s', id);
  }

  /** A step that does not concern the failures of `id`. */
  lemma Untouched(c: Config, steps: seq<Step>, s: System, step: Step, s': System, id: string)
    requires CountInv(c, steps, s, id) && step != ResetCount(id) && s.now <= s'.now
    requires Lookup(s'.t, FailKey(c, id)) == Lookup(s.t, FailKey(c, id))
    requires Recent(s', id) == Recent(s, id)
    ensures CountInv(c, steps + [step], s', id)
  {
    if Recent(s, id) != [] { OccurredStays(c, steps, step, id, Recent(s, id), s.now, s'.now); }
  }

  lemma FailureKept(c: Config, steps: seq<Step>, s: System, step: Step, id: string)
    requires c.window >= 0 && Run(c, steps) == Some(s) && s.taken == |steps|
    requires CountInv(c, steps, s, id) && Do(c, s, step).Some? && step.CountFailure? && step.id == id
    ensures CountInv(c, steps + [step], Do(c, s, step).value, id)
  {
    var f := Recent(s, id);
    if OpensWindow(c, s, id) {
      OccurredMore(c, steps, step, id, [], s, s.now + step.d);
      NewWindow(c, steps, s, step, id);
    } else {
      OccurredMore(c, steps, step, id, f, s, s.now);
      assert Happened(c, steps, id, f[0]);
      SameWindow(c, steps, s, step, id);
    }
  }

  lemma NewWindow(c: Config, steps: seq<Step>, s: System, step: Step, id: string)
    requires c.window >= 0 && s.taken == |steps| && OpensWindow(c, s, id) && CountInv(c, steps, s, id)
    requires Do(c, s, step).Some? && step.CountFailure? && step.id == id
    ensures var s' := Do(c, s, step).value;
            && Recent(s', id) == [] + [Failure(s.taken, s'.now)]
            && FailKey(c, id) in s'.t && Windowed(c, steps + [step], s', id)
  {}

  lemma SameWindow(c: Config, steps: seq<Step>, s: System, step: Step, id: string)
    requires s.taken == |steps| && !OpensWindow(c, s, id) && CountInv(c, steps, s, id) &&
              Recent(s, id)[0].step < |steps|
    requires Do(c, s, step).Some? && step.CountFailure? && step.id == id
    ensures var s' := Do(c, s, step).value;
            && Recent(s', id) == Recent(s, id) + [Failure(s.taken, s.now)]
            && FailKey(c, id) in s'.t && Windowed(c, steps + [step], s', id)
  {}

  lemma DueKept(c: Config, steps: seq<Step>, s: System, step: Step, p: nat)
    requires c.window >= 0 && Run(c, steps) == Some(s) && Inv(c, steps, s) && Do(c, s, step).Some?
    requires CountInv(c, steps + [step], Do(c, s, step).value, if step.CountFailure? then step.id else "")
    requires p in Do(c, s, step).value.due
    ensures var s' := Do(c, s, step).value; Earned(c, steps + [step], s'.due[p].id, s'.due[p].cause, s'.now)
  {
    var s' := Do(c, s, step).value;
    if p in s.due && s'.due[p] == s.due[p] {
      EarnedStays(c, steps, step, s.due[p].id, s.due[p].cause, s.now, s'.now);
    } else {
      NewlyDue(c, steps, s, step);
    }
  }

  /** A failure that reaches the threshold: the window's failures are the cause. */
  lemma NewlyDue(c: Config, steps: seq<Step>, s: System, step: Step)
    requires s.taken == |steps| && Do(c, s, step).Some? && step.CountFailure?
    requires CountInv(c, steps + [step], Do(c, s, step).value, step.id)
    requires FailKey(c, step.id) in Do(c, s, step).value.t
    requires Do(c, s, step).value.t[FailKey(c, step.id)].n >= c.threshold
    ensures var s' := Do(c, s, step).value; Earned(c, steps + [step], step.id, Recent(s', step.id), s'.now)
  {
    var s' := Do(c, s, step).value;
    var f := Recent(s', step.id);
    assert f[|f| - 1].step == |steps|;
    FitInWindow(c, steps + [step], s', step.id);
  }

  lemma FitInWindow(c: Config, steps: seq<Step>, s: System, id: string)
    requires FailKey(c, id) in s.t && s.t[FailKey(c, id)].n >= c.threshold && CountInv(c, steps, s, id)
    ensures Enough(c, Recent(s, id)) && Occurred(c, steps, id, Recent(s, id), s.now)
    ensures Unreset(steps, id, Recent(s, id), |steps|)
  {}

  lemma BlocksKept(c: Config, steps: seq<Step>, s: System, step: Step, id: string)
    requires Inv(c, steps, s) && Do(c, s, step).Some? && id in Do(c, s, step).value.blocks
    ensures var b := Do(c, s, step).value.blocks[id]; Earned(c, steps + [step], id, b.cause, b.begun)
  {
    var b := Do(c, s, step).value.blocks[id];
    if id in s.blocks && s.blocks[id] == b {
      EarnedStays(c, steps, step, id, b.cause, b.begun, b.begun);
    } else {
      assert step.SetBlock? && s.due[step.p] == Due(id, b.cause);
      EarnedStays(c, steps, step, id, b.cause, s.now, b.begun);
    }
  }

  lemma StepKeepsInv(c: Config, steps: seq<Step>, s: System, step: Step)
    requires c.window >= 0 && Run(c, steps) == Some(s) && Inv(c, steps, s) && Do(c, s, step).Some?
    ensures Inv(c, steps + [step], Do(c, s, step).value)
  {
    var s' := Do(c, s, step).value;
    forall id ensures CountInv(c, steps + [step], s', id) {
      assert CountInv(c, steps, s, id);
      CountKept(c, steps, s, step, id);
    }
    forall p | p in s'.due ensures Earned(c, steps + [step], s'.due[p].id, s'.due[p].cause, s'.now) {
      DueKept(c, steps, s, step, p);
    }
    forall id | id in s'.blocks ensures Earned(c, steps + [step], id, s'.blocks[id].cause, s'.blocks[id].begun) {
      BlocksKept(c, steps, s, step, id);
    }
  }

  lemma {:induction false} RunKeepsInv(c: Config, steps: seq<Step>)
    requires c.window >= 0 && Run(c, steps).Some?
    ensures Inv(c, steps, Run(c, steps).value)
  {
    if steps != [] {
      var init, last := steps[..|steps| - 1], steps[|steps| - 1];
      RunKeepsInv(c, init);
      StepKeepsInv(c, init, Run(c, init).value, last);
      assert steps == init + [last];
    }
  }

  /**
   Whoever is denied failed at least Threshold times: in as many different
   steps of the run, within one Window, with no reset in between, and before
   the block began, also when Fail calls overlap.
   */
  lemma BlocksAreEarned(c: Config, steps: seq<Step>, id: string)
    requires c.window >= 0 && Run(c, steps).Some?
    ensures var s := Run(c, steps).value;
            Blocked(c, s, id) ==> id in s.blocks && Earned(c, steps, id, s.blocks[id].cause, s.blocks[id].begun)
  {
    RunKeepsInv(c, steps);
    BlocksHold(c, steps, id);
  }

  lemma DueIffThreshold(c: Config, steps: seq<Step>, s: System, p: nat, id: string, d: nat)
    requires p !in s.due && CountInv(c, steps, s, id)
    ensures var f, s' := WithOneMore(c, s, id, s.now + d), Do(c, s, CountFailure(p, id, d)).value;
            (p in s'.due <==> |f| >= c.threshold) && (p in s'.due ==> s'.due[p] == Due(id, f))
  {}

  /**
   A failure calls for a block exactly when it is at least the Threshold-th of
   its window, and setting that block denies the id from then on, unless an
   earlier block is still in force, which stays as it is.
   */
  lemma ThresholdBlocks(c: Config, steps: seq<Step>, p: nat, id: string, d: nat, d': nat)
    requires c.window >= 0 && Run(c, steps).Some? && p !in Run(c, steps).value.due
    ensures var s := Run(c, steps).value;
            var f := WithOneMore(c, s, id, s.now + d);
            var s1 := Do(c, s, CountFailure(p, id, d)).value;
            && (p in s1.due <==> |f| >= c.threshold)
            && (p in s1.due ==> Do(c, s1, SetBlock(p, d')).Some?)
            && (p in s1.due && !Blocked(c, s1, id) ==>
                  var s2 := Do(c, s1, SetBlock(p, d')).value;
                  (Blocked(c, s2, id) <==> c.blockFor >= 0) && id in s2.blocks && s2.blocks[id] == Block(s2.now, f))
            && (p in s1.due && Blocked(c, s1, id) ==>
                  Do(c, s1, SetBlock(p, d')).value.blocks == s1.blocks)
  {
    RunKeepsInv(c, steps);
    var s := Run(c, steps).value;
    DueIffThreshold(c, steps, s, p, id, d);
    BlocksHold(c, steps, id);
    var s1 := Do(c, s, CountFailure(p, id, d)).value;
    BlockKept(c, s, CountFailure(p, id, d), id);
    if p in s1.due { BlockKept(c, s1, SetBlock(p, d'), id); }
  }
}
