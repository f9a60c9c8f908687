/**
 That the read-through cache (authguard/cache.go) does cache: a load that
 succeeds, with no Forget since it was registered, is stored, and answers every
 Get until it expires, is forgotten, replaced, or dropped to make room. And that
 a Get which misses waits for a load that has not ended.
 */
module CacheHits {
  import opened Options
  import opened ReadThrough
  import TtlCache

  /** No Forget of any key has taken effect since the call was registered. */
  ghost predicate NoForgetSince(s: System, call: nat)
    requires call < |s.info|
  {
    forall k :: k in s.dropped ==> s.dropped[k] < s.info[call].registered
  }

  /** The generation says exactly that. */
  ghost predicate GenInv(s: System, call: nat)
    requires call < |s.info|
  {
    && s.info[call].startGen <= s.core.gen && s.info[call].registered <= s.tick
    && (s.info[call].startGen == s.core.gen <==> NoForgetSince(s, call))
  }

  ghost predicate GenerationsInv(s: System) {
    && (forall k :: k in s.dropped ==> s.dropped[k] <= s.tick)
    && forall i :: 0 <= i < |s.info| ==> GenInv(s, i)
  }

  lemma GenKept(cfg: Config, s: System, step: Step, i: nat)
    requires GenerationsInv(s) && Do(cfg, s, step).Some? && i < |Do(cfg, s, step).value.info|
    ensures GenInv(Do(cfg, s, step).value, i)
  {
    var s' := Do(cfg, s, step).value;
    if i < |s.info| {
      assert GenInv(s, i);
      InfoOnlyGrows(cfg, s, step);
      if step.ForgetLock? { assert s'.dropped[step.key] == s.tick + 1; }
    }
  }

  lemma {:induction false} GenerationsHold(cfg: Config, steps: seq<Step>)
    requires Run(cfg, steps).Some?
    ensures GenerationsInv(Run(cfg, steps).value)
  {
    if steps != [] {
      GenerationsHold(cfg, steps[..|steps| - 1]);
      GenerationsKept(cfg, Run(cfg, steps[..|steps| - 1]).value, steps[|steps| - 1]);
    }
  }

  lemma GenerationsKept(cfg: Config, s: System, step: Step)
    requires GenerationsInv(s) && Do(cfg, s, step).Some?
    ensures GenerationsInv(Do(cfg, s, step).value)
  {
    forall i | 0 <= i < |Do(cfg, s, step).value.info| ensures GenInv(Do(cfg, s, step).value, i) {
      GenKept(cfg, s, step, i);
    }
  }

  /**
   A load that succeeded is in the cache once it is done, if and only if no
   Forget took effect since it was registered.
   */
  lemma StoredIffUnforgotten(cfg: Config, steps: seq<Step>, call: nat, now: int, later: int)
    requires Run(cfg, steps).Some? && Do(cfg, Run(cfg, steps).value, RunUnlock(call, now, later)).Some?
    requires Run(cfg, steps).value.info[call].answer.Some?
    ensures var s, s' := Run(cfg, steps).value, Do(cfg, Run(cfg, steps).value, RunUnlock(call, now, later)).value;
            var entry := TtlCache.Entry(Loaded(s.info[call].answer.value, call), later + cfg.ttl);
            && (NoForgetSince(s, call) ==> Lookup(s'.core.tc, s.info[call].key) == Some(entry))
            && (!NoForgetSince(s, call) ==> s'.core.tc == s.core.tc)
  {
    GenerationsHold(cfg, steps);
    StoredAtUnlock(cfg, Run(cfg, steps).value, call, now, later);
  }

  lemma StoredAtUnlock(cfg: Config, s: System, call: nat, now: int, later: int)
    requires GenerationsInv(s) && Do(cfg, s, RunUnlock(call, now, later)).Some? && s.info[call].answer.Some?
    ensures var s' := Do(cfg, s, RunUnlock(call, now, later)).value;
            var entry := TtlCache.Entry(Loaded(s.info[call].answer.value, call), later + cfg.ttl);
            && (NoForgetSince(s, call) ==> Lookup(s'.core.tc, s.info[call].key) == Some(entry))
            && (!NoForgetSince(s, call) ==> s'.core.tc == s.core.tc)
  {
    assert GenInv(s, call);
  }

  /** The step takes the key's entry out of the cache, or puts another in its place. */
  predicate Displaces(cfg: Config, s: System, step: Step, key: string) {
    match step
    case ForgetUnlock => s.mu == InForget(key)
    case Probe(p, now) =>
      p in s.getters && s.getters[p].key == key && key in s.core.tc && now >= s.core.tc[key].exp
    case RunUnlock(call, _, _) =>
      call < |s.info| && (s.info[call].key == key || (s.info[call].key !in s.core.tc && |s.core.tc| >= cfg.max))
    case _ => false
  }

  lemma EntryStays(cfg: Config, s: System, step: Step, key: string)
    requires Do(cfg, s, step).Some? && key in s.core.tc && !Displaces(cfg, s, step, key)
    ensures Lookup(Do(cfg, s, step).value.core.tc, key) == Some(s.core.tc[key])
  {}

  /** No step from number n on displaced the key's entry. */
  ghost predicate Undisplaced(cfg: Config, steps: seq<Step>, n: nat, key: string) {
    forall m :: n <= m < |steps| && Run(cfg, steps[..m]).Some? ==>
      !Displaces(cfg, Run(cfg, steps[..m]).value, steps[m], key)
  }

  lemma {:induction false} EntryLasts(cfg: Config, steps: seq<Step>, n: nat, key: string)
    requires n <= |steps| && Run(cfg, steps).Some? && Run(cfg, steps[..n]).Some? && Undisplaced(cfg, steps, n, key)
    requires key in Run(cfg, steps[..n]).value.core.tc
    ensures Lookup(Run(cfg, steps).value.core.tc, key) == Some(Run(cfg, steps[..n]).value.core.tc[key])
    decreases |steps| - n
  {
    if n == |steps| {
      assert steps[..n] == steps;
    } else {
      var init, last := steps[..|steps| - 1], steps[|steps| - 1];
      assert init[..n] == steps[..n];
      forall m | n <= m < |init| && Run(cfg, init[..m]).Some?
        ensures !Displaces(cfg, Run(cfg, init[..m]).value, init[m], key)
      {
        assert init[..m] == steps[..m];
      }
      EntryLasts(cfg, init, n, key);
      EntryStays(cfg, Run(cfg, init).value, last, key);
    }
  }

  /**
   A Get's fast path is answered with what a load returned, if the load was
   stored by step n, nothing displaced it since, and it has not expired.
   */
  lemma AnsweredFromCache(cfg: Config, steps: seq<Step>, n: nat, call: nat, now: int, later: int, p: nat, at: int)
    requires Run(cfg, steps).Some? && n < |steps| && steps[n] == RunUnlock(call, now, later)
    requires Run(cfg, steps[..n]).Some? && call < |Run(cfg, steps[..n]).value.info|
    requires Run(cfg, steps[..n]).value.info[call].answer.Some? && NoForgetSince(Run(cfg, steps[..n]).value, call)
    requires var key := Run(cfg, steps[..n]).value.info[call].key;
             && Undisplaced(cfg, steps, n + 1, key)
             && p in Run(cfg, steps).value.getters && Run(cfg, steps).value.getters[p].Probing?
             && Run(cfg, steps).value.getters[p].key == key
    requires at < later + cfg.ttl
    ensures Do(cfg, Run(cfg, steps).value, Probe(p, at)).Some?
    ensures var g := Do(cfg, Run(cfg, steps).value, Probe(p, at)).value.getters[p];
            g.Got? && g.got == Loaded(Run(cfg, steps[..n]).value.info[call].answer.value, call)
  {
    var key := Run(cfg, steps[..n]).value.info[call].key;
    Prefix(cfg, steps, n + 1);
    assert steps[..n + 1][..n] == steps[..n];
    StoredIffUnforgotten(cfg, steps[..n], call, now, later);
    EntryLasts(cfg, steps, n + 1, key);
  }

  // ---- A miss waits for a load that has not ended ----------------------------------------

  /** Registered calls are still running. */
  ghost predicate RegisteredRun(s: System) {
    forall k :: k in s.core.calls ==> s.core.calls[k] < |s.info| && Active(s.info[s.core.calls[k]])
  }

  lemma RegisteredKept(cfg: Config, s: System, step: Step)
    requires RegisteredRun(s) && Inv(s) && Do(cfg, s, step).Some?
    ensures RegisteredRun(Do(cfg, s, step).value)
  {
    var s' := Do(cfg, s, step).value;
    forall k | k in s'.core.calls ensures s'.core.calls[k] < |s'.info| && Active(s'.info[s'.core.calls[k]]) {
      if k in s.core.calls { assert RegisteredInv(s, k); }
    }
  }

  lemma {:induction false} RegisteredAreRunning(cfg: Config, steps: seq<Step>)
    requires Run(cfg, steps).Some?
    ensures RegisteredRun(Run(cfg, steps).value)
  {
    if steps != [] {
      RegisteredAreRunning(cfg, steps[..|steps| - 1]);
      RunKeepsInv(cfg, steps[..|steps| - 1]);
      RegisteredKept(cfg, Run(cfg, steps[..|steps| - 1]).value, steps[|steps| - 1]);
    }
  }

  /** A Get that misses waits for a load of its key that has not ended; it starts one only if none is registered. */
  lemma MissWaitsForARunningLoad(cfg: Config, steps: seq<Step>, p: nat)
    requires Run(cfg, steps).Some? && Do(cfg, Run(cfg, steps).value, Join(p)).Some?
    ensures var s, s' := Run(cfg, steps).value, Do(cfg, Run(cfg, steps).value, Join(p)).value;
            var key := s.getters[p].key;
            && s'.getters[p].Waiting? && s'.getters[p].call < |s'.info|
            && s'.info[s'.getters[p].call].key == key && Active(s'.info[s'.getters[p].call])
            && |s'.info| == |s.info| + (if key in s.core.calls then 0 else 1)
            && (s'.getters[p].call == |s.info| <==> key !in s.core.calls)
  {
    RegisteredAreRunning(cfg, steps);
    RunKeepsInv(cfg, steps);
    var s := Run(cfg, steps).value;
    if s.getters[p].key in s.core.calls { assert RegisteredInv(s, s.getters[p].key); }
  }
}
