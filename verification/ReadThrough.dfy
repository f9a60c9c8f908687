/**
 The read-through cache with singleflight and a generation counter
 (authguard/cache.go over ttlcache/ttlcache.go). The mutex sections of Get, run
 and Forget are split where they call the inner cache, because a Get's fast
 path takes only the inner cache's own lock and may run in between.
 */
module ReadThrough {
  import opened Options
  import TtlCache

  /** A value together with the load that produced it. */
  datatype Loaded = Loaded(v: int, call: nat)

  type Entries = map<string, TtlCache.Entry<Loaded>>

  /** The shared fields: the inner cache, the registered call per key, the generation. */
  datatype Core = Core(tc: Entries, calls: map<string, nat>, gen: nat)

  datatype Phase = Spawned | Loading | Returned | Finishing | Closed

  /** One load: who it is for, the generation and the moment it was registered, when it began, what it answered. */
  datatype Call = Call(key: string, startGen: nat, registered: nat, begun: nat, phase: Phase, answer: Option<int>)

  /** One Get. `since` is the moment the last Forget of its key had returned when the Get started. */
  datatype Getter =
    | Probing(key: string, since: nat)
    | Missed(key: string, since: nat)
    | Waiting(key: string, since: nat, call: nat)
    | Got(key: string, since: nat, got: Loaded)
    | Failed(key: string)

  /** Who holds the outer mutex between the two halves of its section. */
  datatype Mutex = Free | InForget(key: string) | InRun(call: nat)

  /** `tick` counts steps; `dropped` and `forgotten` hold, per key, when its last Forget took effect and returned. */
  datatype System = System(
    core: Core, mu: Mutex, info: seq<Call>, getters: map<nat, Getter>,
    tick: nat, dropped: map<string, nat>, forgotten: map<string, nat>)

  datatype Config = Config(ttl: int, max: int)

  datatype Step =
    | StartGet(p: nat, key: string)
    | Probe(p: nat, now: int)
    | Join(p: nat)
    | BeginLoad(call: nat)
    | EndLoad(call: nat, answer: Option<int>)
    | RunLock(call: nat)
    | RunUnlock(call: nat, now: int, later: int)
    | Close(call: nat)
    | Receive(p: nat)
    | Cancel(p: nat)
    | ForgetLock(key: string)
    | ForgetUnlock

  function When(m: map<string, nat>, key: string): nat { if key in m then m[key] else 0 }

  // ---- The shared fields' transitions ---------------------------------------------

  function ProbeCore(c: Core, key: string, now: int): Core {
    if key in c.tc && now < c.tc[key].exp then c else c.(tc := c.tc - {key})
  }

  function Register(c: Core, key: string, call: nat): Core {
    if key in c.calls then c else c.(calls := c.calls[key := call])
  }

  function Unregister(c: Core, key: string, call: nat): Core {
    if key in c.calls && c.calls[key] == call then c.(calls := c.calls - {key}) else c
  }

  /** A finished load is stored only if it succeeded and no invalidation happened since it was registered. */
  function StoreIfCurrent(cfg: Config, c: Core, call: Call, id: nat, now: int, later: int): Core {
    if call.answer.Some? && c.gen == call.startGen
    then
      var entry := TtlCache.Entry(Loaded(call.answer.value, id), later + cfg.ttl);
      c.(tc := TtlCache.Room(c.tc, call.key, now, cfg.max)[call.key := entry])
    else c
  }

  // ---- Steps -----------------------------------------------------------------------

  function SetPhase(s: System, call: nat, c: Call): System
    requires call < |s.info|
  {
    s.(info := s.info[call := c], tick := s.tick + 1)
  }

  function Do(cfg: Config, s: System, step: Step): Option<System> {
    var t := s.tick + 1;
    match step
    case StartGet(p, key) =>
      if p in s.getters then None
      else Some(s.(getters := s.getters[p := Probing(key, When(s.forgotten, key))], tick := t))
    case Probe(p, now) =>
      if p !in s.getters || !s.getters[p].Probing? then None
      else
        var g := s.getters[p];
        var hit := g.key in s.core.tc && now < s.core.tc[g.key].exp;
        Some(s.(core := ProbeCore(s.core, g.key, now), tick := t,
                getters := s.getters[p := if hit then Got(g.key, g.since, s.core.tc[g.key].v)
                  else Missed(g.key, g.since)]))
    case Join(p) =>
      if p !in s.getters || !s.getters[p].Missed? || s.mu != Free then None
      else
        var g := s.getters[p];
        var core := Register(s.core, g.key, |s.info|);
        Some(s.(core := core, tick := t,
                info := if g.key in s.core.calls then s.info
                        else s.info + [Call(g.key, s.core.gen, t, 0, Spawned, None)],
                getters := s.getters[p := Waiting(g.key, g.since, core.calls[g.key])]))
    case BeginLoad(call) =>
      if call >= |s.info| || s.info[call].phase != Spawned then None
      else Some(SetPhase(s, call, s.info[call].(phase := Loading, begun := t)))
    case EndLoad(call, answer) =>
      if call >= |s.info| || s.info[call].phase != Loading then None
      else Some(SetPhase(s, call, s.info[call].(phase := Returned, answer := answer)))
    case RunLock(call) =>
      if call >= |s.info| || s.info[call].phase != Returned || s.mu != Free then None
      else Some(SetPhase(s, call, s.info[call].(phase := Finishing))
                .(mu := InRun(call), core := Unregister(s.core, s.info[call].key, call)))
    case RunUnlock(call, now, later) =>
      if s.mu != InRun(call) || call >= |s.info| then None
      else Some(s.(mu := Free, tick := t, core := StoreIfCurrent(cfg, s.core, s.info[call], call, now, later)))
    case Close(call) =>
      if call >= |s.info| || s.info[call].phase != Finishing || s.mu == InRun(call) then None
      else Some(SetPhase(s, call, s.info[call].(phase := Closed)))
    case Receive(p) =>
      if p !in s.getters || !s.getters[p].Waiting? then None
      else
        var g := s.getters[p];
        if g.call >= |s.info| || s.info[g.call].phase != Closed then None
        else Some(s.(tick := t, getters := s.getters[p :=
          match s.info[g.call].answer
          case Some(v) => Got(g.key, g.since, Loaded(v, g.call))
          case None => Failed(g.key)]))
    case Cancel(p) =>
      if p !in s.getters || !s.getters[p].Waiting? then None
      else Some(s.(tick := t, getters := s.getters[p := Failed(s.getters[p].key)]))
    case ForgetLock(key) =>
      if s.mu != Free then None
      else Some(s.(mu := InForget(key), tick := t, dropped := s.dropped[key := t],
                   core := s.core.(gen := s.core.gen + 1, calls := s.core.calls - {key})))
    case ForgetUnlock =>
      if !s.mu.InForget? then None
      else Some(s.(mu := Free, tick := t, forgotten := s.forgotten[s.mu.key := t],
                   core := s.core.(tc := s.core.tc - {s.mu.key})))
  }

  const START := System(Core(map[], map[], 0), Free, [], map[], 0, map[], map[])

  function Run(cfg: Config, steps: seq<Step>): Option<System> {
    if steps == [] then Some(START)
    else
      var before := Run(cfg, steps[..|steps| - 1]);
      if before.None? then None else Do(cfg, before.value, steps[|steps| - 1])
  }

  // ---- What every step keeps ----------------------------------------------------------

  predicate Active(c: Call) { c.phase in {Spawned, Loading, Returned} }

  predicate Answered(c: Call) { c.phase in {Returned, Finishing, Closed} }

  /** `v` is what a load for `key` returned, and that load was registered and begun after `since`. */
  predicate FreshFor(info: seq<Call>, v: Loaded, key: string, since: nat) {
    && v.call < |info|
    && info[v.call].key == key && Answered(info[v.call]) && info[v.call].answer == Some(v.v)
    && since < info[v.call].registered < info[v.call].begun
  }

  /** A load begins after it is registered. */
  predicate CallTimes(s: System, c: Call) {
    0 < c.registered <= s.tick && (c.phase != Spawned ==> c.registered < c.begun <= s.tick)
  }

  /** A load registered in the current generation is newer than every Forget that has returned. */
  predicate CallCurrent(s: System, c: Call) {
    && c.startGen <= s.core.gen
    && (c.startGen == s.core.gen ==> !s.mu.InForget? && forall k :: k in s.forgotten ==> s.forgotten[k] < c.registered)
  }

  /** A running load is the registered one for its key, unless a Forget of the key dropped it. */
  predicate CallRegistered(s: System, i: nat)
    requires i < |s.info|
  {
    var c := s.info[i];
    Active(c) ==> (c.key in s.core.calls && s.core.calls[c.key] == i) || c.registered < When(s.dropped, c.key)
  }

  predicate CallInv(s: System, i: nat)
    requires i < |s.info|
  {
    CallTimes(s, s.info[i]) && CallCurrent(s, s.info[i]) && CallRegistered(s, i)
  }

  predicate GetterInv(s: System, g: Getter) {
    match g
    case Probing(key, since) => since <= When(s.forgotten, key)
    case Missed(key, since) => since <= When(s.forgotten, key)
    case Waiting(key, since, call) => call < |s.info| && s.info[call].key == key && since < s.info[call].registered
    case Got(key, since, v) => FreshFor(s.info, v, key, since)
    case Failed(_) => true
  }

  ghost predicate CacheInv(s: System) {
    forall k :: k in s.core.tc ==> FreshFor(s.info, s.core.tc[k].v, k, When(s.forgotten, k))
  }

  predicate RegisteredInv(s: System, k: string)
    requires k in s.core.calls
  {
    var i := s.core.calls[k];
    i < |s.info| && s.info[i].key == k && When(s.forgotten, k) < s.info[i].registered &&
      When(s.dropped, k) < s.info[i].registered
  }

  ghost predicate CallsInv(s: System) {
    && (forall k :: k in s.core.calls ==> RegisteredInv(s, k))
    && (s.mu.InForget? ==> s.mu.key !in s.core.calls)
    && (s.mu.InRun? ==> s.mu.call < |s.info| && s.info[s.mu.call].phase == Finishing)
  }

  ghost predicate TimeInv(s: System) {
    forall k :: When(s.forgotten, k) <= s.tick && When(s.dropped, k) <= s.tick
  }

  ghost predicate InfoInv(s: System) { forall i :: 0 <= i < |s.info| ==> CallInv(s, i) }

  ghost predicate GettersInv(s: System) { forall p :: p in s.getters ==> GetterInv(s, s.getters[p]) }

  ghost predicate Inv(s: System) {
    CacheInv(s) && CallsInv(s) && TimeInv(s) && InfoInv(s) && GettersInv(s)
  }

  /** Loads only gain progress: what is known about a value stays known. */
  predicate InfoGrows(a: seq<Call>, b: seq<Call>) {
    && |a| <= |b|
    && forall i :: 0 <= i < |a| ==>
         && a[i].key == b[i].key && a[i].registered == b[i].registered && a[i].startGen == b[i].startGen
         && (Answered(a[i]) ==> Answered(b[i]) && a[i].answer == b[i].answer && a[i].begun == b[i].begun)
  }

  lemma FreshStays(a: seq<Call>, b: seq<Call>, v: Loaded, key: string, since: nat)
    requires InfoGrows(a, b) && FreshFor(a, v, key, since)
    ensures FreshFor(b, v, key, since)
  {}

  lemma GetterStays(s: System, s': System, g: Getter)
    requires GetterInv(s, g) && InfoGrows(s.info, s'.info)
    requires forall k :: When(s.forgotten, k) <= When(s'.forgotten, k)
    ensures GetterInv(s', g)
  {}

  lemma InfoOnlyGrows(cfg: Config, s: System, step: Step)
    requires Do(cfg, s, step).Some?
    ensures InfoGrows(s.info, Do(cfg, s, step).value.info)
  {}

  lemma TimeKept(cfg: Config, s: System, step: Step)
    requires TimeInv(s) && Do(cfg, s, step).Some?
    ensures var s' := Do(cfg, s, step).value;
            && TimeInv(s')
            && forall k :: When(s.forgotten, k) <= When(s'.forgotten, k) && When(s.dropped, k) <= When(s'.dropped, k)
  {}

  /** Only a finishing run adds to the inner cache, and only a Forget's end moves `forgotten`. */
  lemma CacheShape(cfg: Config, s: System, step: Step, k: string)
    requires Do(cfg, s, step).Some?
    ensures var s' := Do(cfg, s, step).value;
            && (k in s'.core.tc && !step.RunUnlock? ==> k in s.core.tc && s'.core.tc[k] == s.core.tc[k])
            && (k in s'.core.tc ==> When(s'.forgotten, k) == When(s.forgotten, k))
  {}

  lemma CacheKept(cfg: Config, s: System, step: Step)
    requires CacheInv(s) && InfoInv(s) && CallsInv(s) && Do(cfg, s, step).Some?
    ensures CacheInv(Do(cfg, s, step).value)
  {
    var s' := Do(cfg, s, step).value;
    InfoOnlyGrows(cfg, s, step);
    forall k | k in s'.core.tc ensures FreshFor(s'.info, s'.core.tc[k].v, k, When(s'.forgotten, k)) {
      CacheShape(cfg, s, step, k);
      if k in s.core.tc && s'.core.tc[k] == s.core.tc[k] {
        FreshStays(s.info, s'.info, s.core.tc[k].v, k, When(s.forgotten, k));
      } else {
        StoredIsFresh(cfg, s, step, k);
      }
    }
  }

  lemma StoredIsFresh(cfg: Config, s: System, step: Step, k: string)
    requires InfoInv(s) && CallsInv(s) && step.RunUnlock? && Do(cfg, s, step).Some?
    requires k in Do(cfg, s, step).value.core.tc
    requires k !in s.core.tc || Do(cfg, s, step).value.core.tc[k] != s.core.tc[k]
    ensures var s' := Do(cfg, s, step).value; FreshFor(s'.info, s'.core.tc[k].v, k, When(s'.forgotten, k))
  {
    assert CallInv(s, step.call);
  }

  /** Registrations come only from Join, and a Forget drops the ones it outdates. */
  lemma CallsShape(cfg: Config, s: System, step: Step, k: string)
    requires Do(cfg, s, step).Some? && k in Do(cfg, s, step).value.core.calls
    ensures var s' := Do(cfg, s, step).value;
            if k in s.core.calls then
              && s'.core.calls[k] == s.core.calls[k]
              && When(s'.dropped, k) == When(s.dropped, k)
              && (When(s'.forgotten, k) == When(s.forgotten, k) || (step.ForgetUnlock? && s.mu == InForget(k)))
            else
              && step.Join? && s'.core.calls[k] == |s.info| && |s'.info| == |s.info| + 1
              && s'.info[|s.info|].key == k && s'.info[|s.info|].registered == s.tick + 1
              && s'.dropped == s.dropped && s'.forgotten == s.forgotten
  {}

  lemma CallsKept(cfg: Config, s: System, step: Step)
    requires CallsInv(s) && TimeInv(s) && Do(cfg, s, step).Some?
    ensures CallsInv(Do(cfg, s, step).value)
  {
    var s' := Do(cfg, s, step).value;
    forall k | k in s'.core.calls ensures RegisteredInv(s', k) {
      CallsShape(cfg, s, step, k);
      InfoOnlyGrows(cfg, s, step);
      assert When(s.forgotten, k) <= s.tick && When(s.dropped, k) <= s.tick;
      if k in s.core.calls { assert RegisteredInv(s, k); }
    }
    MutexKept(cfg, s, step);
  }

  lemma MutexKept(cfg: Config, s: System, step: Step)
    requires CallsInv(s) && Do(cfg, s, step).Some?
    ensures var s' := Do(cfg, s, step).value;
            && (s'.mu.InForget? ==> s'.mu.key !in s'.core.calls)
            && (s'.mu.InRun? ==> s'.mu.call < |s'.info| && s'.info[s'.mu.call].phase == Finishing)
  {}

  lemma InfoKept(cfg: Config, s: System, step: Step)
    requires InfoInv(s) && CallsInv(s) && TimeInv(s) && Do(cfg, s, step).Some?
    ensures InfoInv(Do(cfg, s, step).value)
  {
    var s' := Do(cfg, s, step).value;
    forall i | 0 <= i < |s'.info| ensures CallInv(s', i) {
      if i < |s.info| { assert CallInv(s, i); }
      CallKept(cfg, s, step, i);
    }
  }

  lemma CallKept(cfg: Config, s: System, step: Step, i: nat)
    requires CallsInv(s) && TimeInv(s) && Do(cfg, s, step).Some?
    requires i < |Do(cfg, s, step).value.info|
    requires i < |s.info| ==> CallInv(s, i)
    ensures CallInv(Do(cfg, s, step).value, i)
  {
    CallTimesKept(cfg, s, step, i);
    CallCurrentKept(cfg, s, step, i);
    CallRegisteredKept(cfg, s, step, i);
  }

  lemma CallTimesKept(cfg: Config, s: System, step: Step, i: nat)
    requires Do(cfg, s, step).Some? && i < |Do(cfg, s, step).value.info|
    requires i < |s.info| ==> CallTimes(s, s.info[i])
    ensures CallTimes(Do(cfg, s, step).value, Do(cfg, s, step).value.info[i])
  {}

  lemma CallCurrentKept(cfg: Config, s: System, step: Step, i: nat)
    requires TimeInv(s) && Do(cfg, s, step).Some? && i < |Do(cfg, s, step).value.info|
    requires i < |s.info| ==> CallCurrent(s, s.info[i])
    ensures CallCurrent(Do(cfg, s, step).value, Do(cfg, s, step).value.info[i])
  {
    forall k | k in s.forgotten ensures s.forgotten[k] <= s.tick { assert When(s.forgotten, k) <= s.tick; }
  }

  lemma CallRegisteredKept(cfg: Config, s: System, step: Step, i: nat)
    requires Do(cfg, s, step).Some? && i < |Do(cfg, s, step).value.info|
    requires i < |s.info| ==> CallTimes(s, s.info[i]) && CallRegistered(s, i)
    ensures CallRegistered(Do(cfg, s, step).value, i)
  {}

  lemma GettersKept(cfg: Config, s: System, step: Step)
    requires Inv(s) && Do(cfg, s, step).Some?
    ensures GettersInv(Do(cfg, s, step).value)
  {
    var s' := Do(cfg, s, step).value;
    InfoOnlyGrows(cfg, s, step);
    TimeKept(cfg, s, step);
    forall p | p in s'.getters ensures GetterInv(s', s'.getters[p]) {
      if p in s.getters && s'.getters[p] == s.getters[p] {
        GetterStays(s, s', s.getters[p]);
      } else {
        GetterMoves(cfg, s, step, p);
      }
    }
  }

  lemma GetterMoves(cfg: Config, s: System, step: Step, p: nat)
    requires Inv(s) && Do(cfg, s, step).Some?
    requires p in Do(cfg, s, step).value.getters
    requires p in s.getters ==> s.getters[p] != Do(cfg, s, step).value.getters[p]
    ensures GetterInv(Do(cfg, s, step).value, Do(cfg, s, step).value.getters[p])
  {
    if p in s.getters {
      var g := s.getters[p];
      assert GetterInv(s, g);
      match step
      case Probe(_, now) =>
        if g.key in s.core.tc { assert FreshFor(s.info, s.core.tc[g.key].v, g.key, When(s.forgotten, g.key)); }
      case Join(_) =>
        assert When(s.forgotten, g.key) <= s.tick;
        if g.key in s.core.calls { assert RegisteredInv(s, g.key); }
      case Receive(_) =>
        assert CallInv(s, g.call);
      case _ =>
    }
  }

  lemma StepKeepsInv(cfg: Config, s: System, step: Step)
    requires Inv(s) && Do(cfg, s, step).Some?
    ensures Inv(Do(cfg, s, step).value)
  {
    TimeKept(cfg, s, step);
    CacheKept(cfg, s, step);
    CallsKept(cfg, s, step);
    InfoKept(cfg, s, step);
    GettersKept(cfg, s, step);
  }

  lemma {:induction false} RunKeepsInv(cfg: Config, steps: seq<Step>)
    requires Run(cfg, steps).Some?
    ensures Inv(Run(cfg, steps).value)
  {
    if steps != [] {
      RunKeepsInv(cfg, steps[..|steps| - 1]);
      StepKeepsInv(cfg, Run(cfg, steps[..|steps| - 1]).value, steps[|steps| - 1]);
    }
  }

  // ---- Theorems over whole runs ----------------------------------------------------------

  lemma {:induction false} Prefix(cfg: Config, steps: seq<Step>, n: nat)
    requires Run(cfg, steps).Some? && n <= |steps|
    ensures Run(cfg, steps[..n]).Some? && Run(cfg, steps[..n]).value.tick == n
    decreases |steps|
  {
    if n == |steps| {
      assert steps[..n] == steps;
      TicksCountSteps(cfg, steps);
    } else {
      assert steps[..|steps| - 1][..n] == steps[..n];
      Prefix(cfg, steps[..|steps| - 1], n);
    }
  }

  lemma {:induction false} TicksCountSteps(cfg: Config, steps: seq<Step>)
    requires Run(cfg, steps).Some?
    ensures Run(cfg, steps).value.tick == |steps|
  {
    if steps != [] {
      TicksCountSteps(cfg, steps[..|steps| - 1]);
      OneTick(cfg, Run(cfg, steps[..|steps| - 1]).value, steps[|steps| - 1]);
    }
  }

  lemma OneTick(cfg: Config, s: System, step: Step)
    requires Do(cfg, s, step).Some?
    ensures Do(cfg, s, step).value.tick == s.tick + 1
  {}

  /** What has been forgotten stays forgotten, and a Get in flight keeps what it started with. */
  ghost predicate Continues(s: System, s': System, key: string, p: nat) {
    && When(s.forgotten, key) <= When(s'.forgotten, key)
    && (p in s.getters ==> p in s'.getters && (s'.getters[p].Failed? || SameGet(s.getters[p], s'.getters[p])))
    && (p in s.getters && s.getters[p].Failed? ==> s'.getters[p].Failed?)
  }

  predicate SameGet(g: Getter, g': Getter) {
    !g.Failed? && !g'.Failed? && g'.key == g.key && g'.since == g.since
  }

  lemma StepContinues(cfg: Config, s: System, step: Step, key: string, p: nat)
    requires TimeInv(s) && Do(cfg, s, step).Some?
    ensures Continues(s, Do(cfg, s, step).value, key, p)
  {}

  lemma {:induction false} RunContinues(cfg: Config, steps: seq<Step>, n: nat, key: string, p: nat)
    requires Run(cfg, steps).Some? && n <= |steps| && Run(cfg, steps[..n]).Some?
    ensures Continues(Run(cfg, steps[..n]).value, Run(cfg, steps).value, key, p)
    decreases |steps| - n
  {
    if n == |steps| {
      assert steps[..n] == steps;
    } else {
      var init := steps[..|steps| - 1];
      assert init[..n] == steps[..n];
      RunContinues(cfg, init, n, key, p);
      RunKeepsInv(cfg, init);
      StepContinues(cfg, Run(cfg, init).value, steps[|steps| - 1], key, p);
    }
  }

  /** The moment a Forget returns, its key carries that moment. */
  lemma ForgetReturns(cfg: Config, steps: seq<Step>, f: nat, key: string)
    requires Run(cfg, steps).Some? && f < |steps| && steps[f] == ForgetUnlock
    requires Run(cfg, steps[..f]).Some? && Run(cfg, steps[..f]).value.mu == InForget(key)
    ensures Run(cfg, steps[..f + 1]).Some? && When(Run(cfg, steps[..f + 1]).value.forgotten, key) == f + 1
  {
    Prefix(cfg, steps, f);
    Prefix(cfg, steps, f + 1);
    assert steps[..f + 1][..f] == steps[..f];
  }

  /** A Get remembers the last Forget of its key that had returned when it started. */
  lemma GetStarts(cfg: Config, steps: seq<Step>, g: nat, p: nat, key: string)
    requires Run(cfg, steps).Some? && g < |steps| && steps[g] == StartGet(p, key)
    ensures Run(cfg, steps[..g]).Some? && Run(cfg, steps[..g + 1]).Some?
    ensures p !in Run(cfg, steps[..g]).value.getters && p in Run(cfg, steps[..g + 1]).value.getters
    ensures Run(cfg, steps[..g + 1]).value.getters[p] == Probing(key, When(Run(cfg, steps[..g]).value.forgotten, key))
  {
    Prefix(cfg, steps, g);
    Prefix(cfg, steps, g + 1);
    assert steps[..g + 1][..g] == steps[..g];
  }

  /**
   Freshness: when a Get starts after a Forget of its key has returned (step f),
   the value it yields, from the cache or from a call it joined, is what a load
   that began after that Forget returned.
   */
  lemma FreshAfterForget(cfg: Config, steps: seq<Step>, f: nat, g: nat, p: nat, key: string)
    requires Run(cfg, steps).Some? && f < g < |steps|
    requires steps[f] == ForgetUnlock && Run(cfg, steps[..f]).Some? && Run(cfg, steps[..f]).value.mu == InForget(key)
    requires steps[g] == StartGet(p, key)
    requires p in Run(cfg, steps).value.getters && Run(cfg, steps).value.getters[p].Got?
    ensures var s := Run(cfg, steps).value; FreshFor(s.info, s.getters[p].got, key, f + 1)
  {
    ForgetReturns(cfg, steps, f, key);
    GetStarts(cfg, steps, g, p, key);
    var atGet, end := Run(cfg, steps[..g]).value, Run(cfg, steps).value;
    assert When(atGet.forgotten, key) >= f + 1 by {
      assert steps[..g][..f + 1] == steps[..f + 1];
      RunContinues(cfg, steps[..g], f + 1, key, p);
    }
    RunContinues(cfg, steps, g + 1, key, p);
    RunKeepsInv(cfg, steps);
    assert GetterInv(end, end.getters[p]);
  }

  /** Singleflight: of the loads running for a key, at most one was registered after its last Forget. */
  lemma OneLoadPerKey(cfg: Config, steps: seq<Step>, i: nat, j: nat)
    requires Run(cfg, steps).Some?
    requires i < |Run(cfg, steps).value.info| && j < |Run(cfg, steps).value.info|
    ensures var s := Run(cfg, steps).value;
            var a, b := s.info[i], s.info[j];
            && a.key == b.key && Active(a) && Active(b)
            && a.registered >= When(s.dropped, a.key) && b.registered >= When(s.dropped, b.key)
            ==> i == j
  {
    RunKeepsInv(cfg, steps);
    assert CallInv(Run(cfg, steps).value, i) && CallInv(Run(cfg, steps).value, j);
  }

  /** A finishing load never removes another call's registration. */
  lemma FinishingKeepsOthers(cfg: Config, s: System, call: nat, key: string)
    requires Do(cfg, s, RunLock(call)).Some?
    requires key in s.core.calls && s.core.calls[key] != call
    ensures var s' := Do(cfg, s, RunLock(call)).value; key in s'.core.calls && s'.core.calls[key] == s.core.calls[key]
  {}

  // ---- The cache object ----------------------------------------------------------------------

  class Cache {
    const cfg: Config
    const tc: TtlCache.Cache<Loaded>
    var calls: map<string, nat>
    var gen: nat
    /** The next call's identity. */
    var next: nat

    constructor (cfg: Config)
      ensures Valid() && fresh(tc) && this.cfg == cfg && AsCore() == START.core && next == 0
    {
      this.cfg := cfg;
      tc := new TtlCache.Cache(cfg.ttl, cfg.max);
      calls, gen, next := map[], 0, 0;
    }

    ghost predicate Valid() { tc.ttl == cfg.ttl && tc.max == cfg.max }

    ghost function AsCore(): Core reads this, tc { Core(tc.m, calls, gen) }

    /** Get's fast path. */
    method FastPath(key: string, now: int) returns (v: Option<Loaded>)
      requires Valid()
      modifies tc
      ensures AsCore() == ProbeCore(old(AsCore()), key, now)
      ensures v == if key in old(tc.m) && now < old(tc.m)[key].exp then Some(old(tc.m)[key].v) else None
    {
      v := tc.Get(key, now);
    }

    /** Get's mutex section: join the registered call or register one; `started` says a load must be spawned. */
    method JoinCall(key: string) returns (call: nat, started: bool, startGen: nat)
      requires Valid()
      modifies this`calls, this`next
      ensures AsCore() == Register(old(AsCore()), key, old(next)) && call == AsCore().calls[key]
      ensures started <==> key !in old(calls)
      ensures next == old(next) + (if started then 1 else 0) && startGen == gen
    {
      started, startGen := key !in calls, gen;
      if started {
        calls, next := calls[key := next], next + 1;
      }
      call := calls[key];
    }

    /** run's mutex section once the loader has answered. */
    method Finish(call: nat, c: Call, now: int, later: int)
      requires Valid()
      modifies this`calls, tc
      ensures AsCore() == StoreIfCurrent(cfg, Unregister(old(AsCore()), c.key, call), c, call, now, later)
    {
      if c.key in calls && calls[c.key] == call { calls := calls - {c.key}; }
      if c.answer.Some? && gen == c.startGen { tc.Set(c.key, Loaded(c.answer.value, call), now, later); }
    }

    method Forget(key: string)
      requires Valid()
      modifies this`calls, this`gen, tc
      ensures gen == old(gen) + 1 && calls == old(calls) - {key} && tc.m == old(tc.m) - {key}
    {
      gen := gen + 1;
      calls := calls - {key};
      tc.Delete(key);
    }
  }
}
