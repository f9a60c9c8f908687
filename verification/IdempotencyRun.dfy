/**
 The idempotency middleware (idempotency/middleware.go) in front of concurrent
 handlers: claim, run, then record the answer or give the claim back. A store
 that cannot be reached refuses the request (fail closed) or, after the handler
 ran, leaves the claim to its lease.
 */
module IdempotencyRun {
  import opened Options
  import opened Idempotency

  /** `wholeSeconds`: the store keeps expiries in whole seconds, rounded up. */
  datatype Config = Config(lease: int, ttl: int, maxBody: nat, wholeSeconds: bool)

  function Expiry(c: Config, t: int): int { if c.wholeSeconds then RoundUp(t) else t }

  /** How a handler ended: an error, or an answer. */
  datatype Response = Response(failed: bool, status: int, contentType: string, body: string)

  predicate Keeps(c: Config, r: Response) { !r.failed && Recordable(r.status) && |r.body| <= c.maxBody }

  function AnswerOf(hash: string, r: Response): Record { Record(hash, r.status, r.contentType, r.body) }

  // ---- One request, as the middleware code runs it ------------------------------------

  /** What the middleware does with a request before its handler. */
  datatype Decision =
    | PassThrough
    | KeyRequired | KeyInvalid | ScopeUnresolved | Refused(why: Claimed) | Unavailable
    | Replayed(rec: Record)
    | RunHandler

  /** The store's verdict a decision stands for. */
  function ClaimOf(d: Decision): Claimed
    requires d.RunHandler? || d.Replayed? || d.Refused?
  {
    match d
    case RunHandler => Held
    case Replayed(rec) => Replay(rec)
    case Refused(why) => why
  }

  class Middleware {
    const c: Config
    const methods: set<string>
    const required: bool
    const failOpen: bool
    const store: MemoryStore

    constructor (c: Config, methods: set<string>, required: bool, failOpen: bool, store: MemoryStore)
      ensures this.c == c && this.methods == methods && this.required == required
      ensures this.failOpen == failOpen && this.store == store
    {
      this.c, this.methods, this.required, this.failOpen, this.store := c, methods, required, failOpen, store;
    }

    /** Up to the handler. `reachable` is whether the store answers in time. */
    method Before(verb: string, key: string, scope: Option<string>, hash: string, now: int, reachable: bool)
      returns (d: Decision)
      modifies store
      ensures d.RunHandler? || d.Replayed? || d.Refused? <==>
                verb in methods && WellFormedKey(key) && scope.Some? && reachable
      ensures d.RunHandler? || d.Replayed? || d.Refused? ==>
                (store.m, ClaimOf(d)) == ClaimUntil(old(store.m), MemKey(scope.value, key), hash, now + c.lease, now)
      ensures d.Refused? ==> d.why == Conflict || d.why == InProgress
      ensures !(d.RunHandler? || d.Replayed? || d.Refused?) ==> store.m == old(store.m)
      ensures d == PassThrough <==>
                verb !in methods || (key == "" && !required) ||
                  (WellFormedKey(key) && scope.Some? && !reachable && failOpen)
      ensures d == KeyRequired <==> verb in methods && key == "" && required
      ensures d == KeyInvalid <==> verb in methods && key != "" && !WellFormedKey(key)
      ensures d == ScopeUnresolved <==> verb in methods && WellFormedKey(key) && scope.None?
      ensures d == Unavailable <==> verb in methods && WellFormedKey(key) && scope.Some? && !reachable && !failOpen
    {
      if verb !in methods { return PassThrough; }
      if key == "" { return if required then KeyRequired else PassThrough; }
      var valid := ValidKey(key);
      if !valid { return KeyInvalid; }
      if scope.None? { return ScopeUnresolved; }
      if !reachable { return if failOpen then PassThrough else Unavailable; }
      var r := store.Claim(scope.value, key, hash, c.lease, now);
      match r
      case Held => d := RunHandler;
      case Replay(rec) => d := Replayed(rec);
      case _ => d := Refused(r);
    }

    /** After the handler: record a final answer, otherwise give the claim back. */
    method After(scope: string, key: string, hash: string, resp: Response, now: int, reachable: bool)
      modifies store
      ensures store.m ==
                if !reachable then old(store.m)
                else if Keeps(c, resp)
                  then CompleteUntil(old(store.m), MemKey(scope, key), AnswerOf(hash, resp), now + c.ttl)
                else Released(old(store.m), MemKey(scope, key))
    {
      if !reachable { return; }
      if resp.failed || !Recordable(resp.status) || |resp.body| > c.maxBody {
        store.Release(scope, key);
      } else {
        store.Complete(scope, key, AnswerOf(hash, resp), c.ttl, now);
      }
    }
  }

  /**
   A request that ran, and then its retry. A final answer (2xx, or a 4xx that
   does not depend on who asks or when) comes back verbatim until its TTL, and
   another request under the key is refused; any other end lets the retry run.
   */
  method AnswerThenRetry(
    mw: Middleware, verb: string, scope: string, key: string, hash: string, resp: Response, now: int,
    retry: string, later: int) returns (d: Decision)
    requires verb in mw.methods && WellFormedKey(key)
    requires MemKey(scope, key) in mw.store.m && !mw.store.m[MemKey(scope, key)].done
    modifies mw.store
    ensures var final := !resp.failed && |resp.body| <= mw.c.maxBody &&
                           (resp.status / 100 == 2 ||
                            (resp.status / 100 == 4 && resp.status !in [401, 403, 408, 409, 423, 425, 429]));
            d == if final && later < now + mw.c.ttl
                 then if retry == hash then Replayed(Record(hash, resp.status, resp.contentType, resp.body))
                      else Refused(Conflict)
                 else RunHandler
  {
    mw.After(scope, key, hash, resp, now, true);
    d := mw.Before(verb, key, Some(scope), retry, later, true);
  }

  // ---- Many requests at once ---------------------------------------------------------------

  /** A handler in flight: its key, its request, when it claimed. */
  datatype Handler = Handler(key: string, hash: string, since: int)

  /** The last answer recorded for a key, and until when it replays. */
  datatype Answer = Answer(rec: Record, until: int)

  /**
   Two facts about handlers in flight are remembered for the theorems:
   `untouched`, that no other handler of the key has reached the store at its
   end since this one claimed, and `joined`, that another has started since.
   */
  datatype State<T> = State(
    now: int, t: T, running: map<nat, Handler>, answers: map<string, Answer>, untouched: set<nat>, joined: set<nat>)

  type System = State<Table<string>>

  datatype Step =
    | Tick(d: nat)
    | Request(p: nat, key: string, hash: string)
    | Finish(p: nat, resp: Response, reachable: bool)

  function HandlersOf(running: map<nat, Handler>, key: string): set<nat> {
    set p | p in running && running[p].key == key
  }

  function Do(c: Config, s: System, step: Step): Option<System> {
    match step
    case Tick(d) => Some(s.(now := s.now + d))
    case Request(p, key, hash) =>
      if p in s.running then None
      else
        var (t, r) := ClaimUntil(s.t, key, hash, Expiry(c, s.now + c.lease), s.now);
        Some(if r == Held then Started(s, p, Handler(key, hash, s.now)).(t := t) else s.(t := t))
    case Finish(p, resp, reachable) =>
      if p !in s.running then None
      else
        var h := s.running[p];
        var s' := Ended(s, p, reachable);
        if !reachable then Some(s')
        else if Keeps(c, resp) then
          Some(s'.(t := CompleteUntil(s.t, h.key, AnswerOf(h.hash, resp), Expiry(c, s.now + c.ttl)),
                   answers := s.answers[h.key := Answer(AnswerOf(h.hash, resp), Expiry(c, s.now + c.ttl))]))
        else Some(s'.(t := Released(s.t, h.key)))
  }

  function Started<T>(s: State<T>, p: nat, h: Handler): State<T> {
    s.(running := s.running[p := h],
       untouched := s.untouched + {p},
       joined := s.joined - {p} + HandlersOf(s.running, h.key))
  }

  function Ended<T>(s: State<T>, p: nat, reachable: bool): State<T>
    requires p in s.running
  {
    s.(running := s.running - {p},
       untouched := if reachable then s.untouched - {p} - HandlersOf(s.running, s.running[p].key)
         else s.untouched - {p})
  }

  const START: System := State(0, map[], map[], map[], {}, {})

  function Run(c: Config, steps: seq<Step>): Option<System> {
    if steps == [] then Some(START)
    else
      var before := Run(c, steps[..|steps| - 1]);
      if before.None? then None else Do(c, before.value, steps[|steps| - 1])
  }

  /** The handler has used up its lease, as the store keeps it. */
  predicate Late<T>(c: Config, s: State<T>, h: Handler) { s.now >= Expiry(c, h.since + c.lease) }

  predicate OwnsClaim(c: Config, s: System, h: Handler) {
    h.key in s.t && s.t[h.key] == Entry(Record(h.hash, 0, "", ""), false, Expiry(c, h.since + c.lease))
  }

  /** Some handler of this key in flight is late. */
  predicate KeyLate<T>(c: Config, s: State<T>, key: string) {
    exists p | p in s.running :: s.running[p].key == key && Late(c, s, s.running[p])
  }

  /** Every handler of this key finished within its lease, all along the run; other keys' may be late. */
  predicate PromptRun(c: Config, steps: seq<Step>, key: string) {
    && Run(c, steps).Some? && !KeyLate(c, Run(c, steps).value, key)
    && (steps == [] || PromptRun(c, steps[..|steps| - 1], key))
  }

  // ---- While the handlers of a key are prompt ------------------------------------------------

  ghost predicate ClaimsInv(c: Config, s: System, key: string) {
    && (forall p :: p in s.running && s.running[p].key == key ==> OwnsClaim(c, s, s.running[p]))
    && (forall p, q :: p in s.running && q in s.running && s.running[p].key == s.running[q].key == key ==> p == q)
  }

  predicate AnswerStored(s: System, k: string) {
    k in s.answers && s.now < s.answers[k].until ==>
      k in s.t && s.t[k] == Entry(s.answers[k].rec, true, s.answers[k].until)
  }

  ghost predicate Inv(c: Config, s: System, key: string) { ClaimsInv(c, s, key) && AnswerStored(s, key) }

  lemma ClaimsKept(c: Config, s: System, step: Step, key: string)
    requires ClaimsInv(c, s, key) && !KeyLate(c, s, key) && Do(c, s, step).Some?
    ensures ClaimsInv(c, Do(c, s, step).value, key)
  {
    var s' := Do(c, s, step).value;
    match step
    case Tick(_) =>
    case Request(p, k, hash) =>
      forall q | q in s.running && s.running[q].key == key
        ensures OwnsClaim(c, s', s.running[q]) && (p in s'.running ==> k != key)
      {
        assert OwnsClaim(c, s, s.running[q]) && !Late(c, s, s.running[q]);
      }
    case Finish(p, resp, reachable) => FinishKeepsClaims(c, s, p, resp, reachable, key);
  }

  lemma FinishKeepsClaims(c: Config, s: System, p: nat, resp: Response, reachable: bool, key: string)
    requires ClaimsInv(c, s, key) && p in s.running
    ensures ClaimsInv(c, Do(c, s, Finish(p, resp, reachable)).value, key)
  {
    var s' := Do(c, s, Finish(p, resp, reachable)).value;
    forall q | q in s'.running && s'.running[q].key == key ensures OwnsClaim(c, s', s'.running[q]) {
      assert OwnsClaim(c, s, s.running[q]) && s.running[p].key != key;
    }
  }

  lemma StepKeepsInv(c: Config, s: System, step: Step, key: string)
    requires Inv(c, s, key) && !KeyLate(c, s, key) && Do(c, s, step).Some?
    ensures Inv(c, Do(c, s, step).value, key)
  {
    ClaimsKept(c, s, step, key);
  }

  lemma {:induction false} RunKeepsInv(c: Config, steps: seq<Step>, key: string)
    requires PromptRun(c, steps, key)
    ensures Inv(c, Run(c, steps).value, key)
  {
    if steps != [] {
      RunKeepsInv(c, steps[..|steps| - 1], key);
      StepKeepsInv(c, Run(c, steps[..|steps| - 1]).value, steps[|steps| - 1], key);
    }
  }

  /** At most one handler of a key is ever in flight, if its own handlers are prompt. */
  lemma OneHandlerPerKey(c: Config, steps: seq<Step>, p: nat, q: nat, key: string)
    requires PromptRun(c, steps, key)
    ensures var s := Run(c, steps).value;
            p in s.running && q in s.running && s.running[p].key == s.running[q].key == key ==> p == q
  {
    RunKeepsInv(c, steps, key);
  }

  /**
   In other words: two handlers of a key in flight at once mean that one of that
   key was late, now or earlier in the run.
   */
  lemma {:induction false} DoubledMeansLate(c: Config, steps: seq<Step>, p: nat, q: nat)
    requires Run(c, steps).Some? && p != q
    requires var s := Run(c, steps).value; p in s.running && q in s.running && s.running[p].key == s.running[q].key
    ensures exists n :: 0 <= n <= |steps| && LateAfter(c, steps[..n], Run(c, steps).value.running[p].key)
  {
    var key := Run(c, steps).value.running[p].key;
    if PromptRun(c, steps, key) {
      OneHandlerPerKey(c, steps, p, q, key);
    } else {
      var n := SomeoneLate(c, steps, key);
    }
  }

  predicate LateAfter(c: Config, steps: seq<Step>, key: string) {
    Run(c, steps).Some? && KeyLate(c, Run(c, steps).value, key)
  }

  lemma {:induction false} SomeoneLate(c: Config, steps: seq<Step>, key: string) returns (n: nat)
    requires Run(c, steps).Some? && !PromptRun(c, steps, key)
    ensures n <= |steps| && LateAfter(c, steps[..n], key)
  {
    n := |steps|;
    assert steps[..n] == steps;
    if !KeyLate(c, Run(c, steps).value, key) {
      n := SomeoneLate(c, steps[..|steps| - 1], key);
      assert steps[..|steps| - 1][..n] == steps[..n];
    }
  }

  lemma HolderIsProtected(c: Config, s: System, p: nat, q: nat, hash: string)
    requires p in s.running && q !in s.running && OwnsClaim(c, s, s.running[p]) && !Late(c, s, s.running[p])
    ensures var key := s.running[p].key;
            && ClaimUntil(s.t, key, hash, Expiry(c, s.now + c.lease), s.now).1 ==
                 (if hash == s.running[p].hash then InProgress else Conflict)
            && Do(c, s, Request(q, key, hash)) == Some(s)
  {}

  /** While a handler runs, its key runs no other: the same request is told to wait, another is refused. */
  lemma RunningIsProtected(c: Config, steps: seq<Step>, p: nat, q: nat, hash: string)
    requires Run(c, steps).Some? && p in Run(c, steps).value.running && q !in Run(c, steps).value.running
    requires PromptRun(c, steps, Run(c, steps).value.running[p].key)
    ensures var s := Run(c, steps).value;
            var key := s.running[p].key;
            && ClaimUntil(s.t, key, hash, Expiry(c, s.now + c.lease), s.now).1 ==
                 (if hash == s.running[p].hash then InProgress else Conflict)
            && Do(c, s, Request(q, key, hash)) == Some(s)
  {
    RunKeepsInv(c, steps, Run(c, steps).value.running[p].key);
    HolderIsProtected(c, Run(c, steps).value, p, q, hash);
  }

  // ---- Answers stay ----------------------------------------------------------------------------

  /** While an answer is live nobody of its key is in flight, so nothing replaces it. */
  lemma AnswerKept(c: Config, s: System, step: Step, key: string)
    requires Inv(c, s, key) && Do(c, s, step).Some? && key in s.answers && s.now < s.answers[key].until
    ensures key in Do(c, s, step).value.answers && Do(c, s, step).value.answers[key] == s.answers[key]
  {}

  lemma TimeGoesOn(c: Config, s: System, step: Step)
    requires Do(c, s, step).Some?
    ensures s.now <= Do(c, s, step).value.now
  {}

  /** An answer stored by the first n steps is the key's answer at every later point before its TTL. */
  lemma {:induction false} AnswerStays(c: Config, steps: seq<Step>, n: nat, key: string)
    requires PromptRun(c, steps, key) && n <= |steps| && Run(c, steps[..n]).Some?
    requires key in Run(c, steps[..n]).value.answers
    requires Run(c, steps).value.now < Run(c, steps[..n]).value.answers[key].until
    ensures key in Run(c, steps).value.answers
    ensures Run(c, steps).value.answers[key] == Run(c, steps[..n]).value.answers[key]
    decreases |steps| - n
  {
    if n == |steps| {
      assert steps[..n] == steps;
    } else {
      var init, last := steps[..|steps| - 1], steps[|steps| - 1];
      assert init[..n] == steps[..n];
      TimeGoesOn(c, Run(c, init).value, last);
      AnswerStays(c, init, n, key);
      RunKeepsInv(c, init, key);
      AnswerKept(c, Run(c, init).value, last, key);
    }
  }

  /**
   Once answered, at step n, and until that answer's TTL, a retry gets that very
   answer and a different request is refused; neither runs.
   */
  lemma AnsweredIsReplayed(c: Config, steps: seq<Step>, n: nat, p: nat, key: string, hash: string)
    requires PromptRun(c, steps, key) && n <= |steps| && Run(c, steps[..n]).Some?
    requires key in Run(c, steps[..n]).value.answers && p !in Run(c, steps).value.running
    requires Run(c, steps).value.now < Run(c, steps[..n]).value.answers[key].until
    ensures var s, stored := Run(c, steps).value, Run(c, steps[..n]).value.answers[key].rec;
            && ClaimUntil(s.t, key, hash, Expiry(c, s.now + c.lease), s.now).1 ==
                 (if hash == stored.hash then Replay(stored) else Conflict)
            && Do(c, s, Request(p, key, hash)) == Some(s)
  {
    AnswerStays(c, steps, n, key);
    RunKeepsInv(c, steps, key);
  }

  // ---- Answers under late handlers -----------------------------------------------------------------

  /** This end of a handler records an answer for the key. */
  predicate Records<T>(c: Config, s: State<T>, p: nat, resp: Response, reachable: bool, key: string) {
    p in s.running && s.running[p].key == key && reachable && Keeps(c, resp)
  }

  /** Whoever ends without recording an answer, late or not, leaves every finished entry as it is. */
  lemma UnrecordedEndKeepsAnswers(c: Config, s: System, p: nat, resp: Response, reachable: bool, key: string)
    requires p in s.running && !Records(c, s, p, resp, reachable, s.running[p].key)
    requires key in s.t && s.t[key].done
    ensures Lookup(Do(c, s, Finish(p, resp, reachable)).value.t, key) == Some(s.t[key])
  {}

  /** In every run: the last answer recorded for a key is what the store holds until its TTL. */
  lemma {:induction false} AnswersHold(c: Config, steps: seq<Step>, key: string)
    requires Run(c, steps).Some?
    ensures AnswerStored(Run(c, steps).value, key)
  {
    if steps != [] {
      AnswersHold(c, steps[..|steps| - 1], key);
      StoredStays(c, Run(c, steps[..|steps| - 1]).value, steps[|steps| - 1], key);
    }
  }

  lemma StoredStays(c: Config, s: System, step: Step, key: string)
    requires AnswerStored(s, key) && Do(c, s, step).Some?
    ensures AnswerStored(Do(c, s, step).value, key)
  {}

  /** No handler of the key has recorded an answer since the first n steps. */
  ghost predicate Unanswered(c: Config, steps: seq<Step>, n: nat, key: string) {
    forall m :: n <= m < |steps| && steps[m].Finish? && Run(c, steps[..m]).Some? ==>
      !Records(c, Run(c, steps[..m]).value, steps[m].p, steps[m].resp, steps[m].reachable, key)
  }

  lemma {:induction false} AnswerStaysUnlessReplaced(c: Config, steps: seq<Step>, n: nat, key: string)
    requires Run(c, steps).Some? && n <= |steps| && Run(c, steps[..n]).Some? && Unanswered(c, steps, n, key)
    requires key in Run(c, steps[..n]).value.answers
    ensures key in Run(c, steps).value.answers
    ensures Run(c, steps).value.answers[key] == Run(c, steps[..n]).value.answers[key]
    decreases |steps| - n
  {
    if n == |steps| {
      assert steps[..n] == steps;
    } else {
      var init, last := steps[..|steps| - 1], steps[|steps| - 1];
      assert init[..n] == steps[..n] && steps[..|steps| - 1] == init;
      forall m | n <= m < |init| && init[m].Finish? && Run(c, init[..m]).Some?
        ensures !Records(c, Run(c, init[..m]).value, init[m].p, init[m].resp, init[m].reachable, key)
      {
        assert init[..m] == steps[..m];
      }
      AnswerStaysUnlessReplaced(c, init, n, key);
    }
  }

  /**
   In every run, however late its handlers are: an answer stored by the first n
   steps is replayed, or refused to another request, until its TTL, unless a
   handler of its key has recorded another one since.
   */
  lemma ReplayedUnlessReplaced(c: Config, steps: seq<Step>, n: nat, p: nat, key: string, hash: string)
    requires Run(c, steps).Some? && n <= |steps| && Run(c, steps[..n]).Some? && Unanswered(c, steps, n, key)
    requires key in Run(c, steps[..n]).value.answers && p !in Run(c, steps).value.running
    requires Run(c, steps).value.now < Run(c, steps[..n]).value.answers[key].until
    ensures var s, stored := Run(c, steps).value, Run(c, steps[..n]).value.answers[key].rec;
            && ClaimUntil(s.t, key, hash, Expiry(c, s.now + c.lease), s.now).1 ==
                 (if hash == stored.hash then Replay(stored) else Conflict)
            && Do(c, s, Request(p, key, hash)) == Some(s)
  {
    AnswerStaysUnlessReplaced(c, steps, n, key);
    AnswersHold(c, steps, key);
  }

  // ---- When a second handler starts ----------------------------------------------------------------

  /**
   Whatever else happened: a handler nobody of its key ended beside owns its
   claim until another started; and that takes it being late.
   */
  predicate TrackInv(c: Config, s: System, p: nat)
    requires p in s.running
  {
    p in s.untouched ==> if p in s.joined then Late(c, s, s.running[p]) else OwnsClaim(c, s, s.running[p])
  }

  ghost predicate Tracked(c: Config, s: System) {
    s.untouched <= s.running.Keys && forall p :: p in s.running ==> TrackInv(c, s, p)
  }

  lemma TrackKept(c: Config, s: System, step: Step, p: nat)
    requires Tracked(c, s) && Do(c, s, step).Some? && p in Do(c, s, step).value.running
    ensures TrackInv(c, Do(c, s, step).value, p)
  {
    var s' := Do(c, s, step).value;
    if p in s.running {
      assert TrackInv(c, s, p);
      if step.Finish? && step.reachable { assert p in s'.untouched ==> s.running[step.p].key != s.running[p].key; }
    }
  }

  lemma {:induction false} RunIsTracked(c: Config, steps: seq<Step>)
    requires Run(c, steps).Some?
    ensures Tracked(c, Run(c, steps).value)
  {
    if steps != [] {
      var s, step := Run(c, steps[..|steps| - 1]).value, steps[|steps| - 1];
      RunIsTracked(c, steps[..|steps| - 1]);
      forall p | p in Run(c, steps).value.running ensures TrackInv(c, Run(c, steps).value, p) {
        TrackKept(c, s, step, p);
      }
    }
  }

  /**
   In every run, for a handler beside which none of its key has ended with the
   store in reach: it owns its claim while it is within its lease, and once
   another request for its key is in, a second handler has started beside it
   exactly if it is late.
   */
  lemma SecondStartsIffLate(c: Config, steps: seq<Step>, p: nat, q: nat, hash: string)
    requires Run(c, steps).Some? && p in Run(c, steps).value.untouched && q !in Run(c, steps).value.running
    ensures var s := Run(c, steps).value;
            && p in s.running
            && (!Late(c, s, s.running[p]) ==> OwnsClaim(c, s, s.running[p]))
            && Do(c, s, Request(q, s.running[p].key, hash)).Some?
            && (p in Do(c, s, Request(q, s.running[p].key, hash)).value.joined <==> Late(c, s, s.running[p]))
  {
    RunIsTracked(c, steps);
    assert TrackInv(c, Run(c, steps).value, p);
  }

  lemma RunMore(c: Config, steps: seq<Step>, step: Step)
    requires Run(c, steps).Some?
    ensures Run(c, steps + [step]) == Do(c, Run(c, steps).value, step)
  {
    assert (steps + [step])[..|steps|] == steps;
  }

  /** A lease that runs out, and the same request again. */
  function LateRun(c: Config, key: string, hash: string): seq<Step>
    requires c.lease >= 0
  {
    [Request(0, key, hash)] + [Tick(Expiry(c, c.lease))] + [Request(1, key, hash)]
  }

  /** Such a run exists for every non-negative lease. */
  lemma LateRunExists(c: Config, key: string, hash: string)
    requires c.lease >= 0
    ensures Run(c, LateRun(c, key, hash)).Some?
    ensures var s := Run(c, LateRun(c, key, hash)).value;
            && s.now == Expiry(c, c.lease) &&
                 s.running == map[0 := Handler(key, hash, 0), 1 := Handler(key, hash, s.now)]
            && s.t == map[key := Entry(Record(hash, 0, "", ""), false, Expiry(c, s.now + c.lease))]
  {
    assert [] + [Request(0, key, hash)] == [Request(0, key, hash)];
    RunMore(c, [], Request(0, key, hash));
    RunMore(c, [Request(0, key, hash)], Tick(Expiry(c, c.lease)));
    RunMore(c, [Request(0, key, hash)] + [Tick(Expiry(c, c.lease))], Request(1, key, hash));
  }

  /** Then the late handler fails, and the request comes once more. */
  function LateReleaseRun(c: Config, key: string, hash: string, failure: Response): seq<Step>
    requires c.lease >= 0
  {
    LateRun(c, key, hash) + [Finish(0, failure, true)] + [Request(2, key, hash)]
  }

  /**
   A claim carries no owner: the late handler's release deletes the claim of the
   one that took over. So two handlers can be in flight that are both within
   their lease, for every positive lease.
   */
  lemma LateReleaseDoubles(c: Config, key: string, hash: string, failure: Response)
    requires c.lease > 0 && !Keeps(c, failure)
    ensures Run(c, LateReleaseRun(c, key, hash, failure)).Some?
    ensures var s := Run(c, LateReleaseRun(c, key, hash, failure)).value;
            && s.running == map[1 := Handler(key, hash, s.now), 2 := Handler(key, hash, s.now)]
            && !KeyLate(c, s, key)
  {
    LateRunExists(c, key, hash);
    RunMore(c, LateRun(c, key, hash), Finish(0, failure, true));
    RunMore(c, LateRun(c, key, hash) + [Finish(0, failure, true)], Request(2, key, hash));
  }

  // ---- The same over the DynamoDB store ----------------------------------------------------

  type RowSystem = State<Rows<string>>

  /** Expired rows may be deleted at any time; a row that refused a claim may be `gone` when that is reported. */
  datatype Move =
    | RowTick(d: nat)
    | RowRequest(p: nat, key: string, hash: string, gone: bool)
    | RowFinish(p: nat, resp: Response, reachable: bool)
    | RowDelete(keys: set<string>)

  /** What a request is told: the claim's outcome, or to wait when the refusing row is gone. */
  function Told(c: Config, s: RowSystem, key: string, hash: string, gone: bool): Claimed {
    var claimed := RowClaim(s.t, key, hash, c.lease, s.now).1;
    if gone && claimed != Held then InProgress else claimed
  }

  function RowDo(c: Config, s: RowSystem, step: Move): Option<RowSystem> {
    match step
    case RowTick(d) => Some(s.(now := s.now + d))
    case RowRequest(p, key, hash, gone) =>
      if p in s.running then None
      else
        var rows := RowStep(s.t, ClaimE(key, hash, c.lease), s.now).0;
        Some(if Told(c, s, key, hash, gone) == Held then Started(s, p, Handler(key, hash, s.now)).(t := rows)
          else s.(t := rows))
    case RowFinish(p, resp, reachable) =>
      if p !in s.running then None
      else
        var h := s.running[p];
        var s' := Ended(s, p, reachable);
        if !reachable then Some(s')
        else if Keeps(c, resp) then
          Some(s'.(t := RowStep(s.t, CompleteE(h.key, AnswerOf(h.hash, resp), c.ttl), s.now).0,
                   answers := s.answers[h.key := Answer(AnswerOf(h.hash, resp), RoundUp(s.now + c.ttl))]))
        else Some(s'.(t := RowStep(s.t, ReleaseE(h.key), s.now).0))
    case RowDelete(keys) => Some(s.(t := RowStep(s.t, TtlDelete(keys), s.now).0))
  }

  function RowRun(c: Config, steps: seq<Move>): Option<RowSystem> {
    if steps == [] then Some(State(0, map[], map[], map[], {}, {}))
    else
      var before := RowRun(c, steps[..|steps| - 1]);
      if before.None? then None else RowDo(c, before.value, steps[|steps| - 1])
  }

  /** What the in-memory store sees of a step: nothing of a deletion. */
  function InMemory(step: Move): Step {
    match step
    case RowTick(d) => Tick(d)
    case RowRequest(p, key, hash, _) => Request(p, key, hash)
    case RowFinish(p, resp, reachable) => Finish(p, resp, reachable)
    case RowDelete(_) => Tick(0)
  }

  function AllInMemory(steps: seq<Move>): seq<Step> {
    seq(|steps|, i requires 0 <= i < |steps| => InMemory(steps[i]))
  }

  ghost predicate Mirrors(r: RowSystem, s: System) {
    && r.now == s.now && r.running == s.running && r.answers == s.answers
    && r.untouched == s.untouched && r.joined == s.joined && Agree(r.t, s.t, s.now)
  }

  lemma RequestMirrors(c: Config, r: RowSystem, s: System, p: nat, key: string, hash: string, gone: bool)
    requires c.wholeSeconds && Mirrors(r, s) && p !in s.running
    ensures Mirrors(RowDo(c, r, RowRequest(p, key, hash, gone)).value, Do(c, s, Request(p, key, hash)).value)
  {
    StepAgrees(r.t, s.t, ClaimE(key, hash, c.lease), s.now);
  }

  lemma FinishMirrors(c: Config, r: RowSystem, s: System, p: nat, resp: Response, reachable: bool)
    requires c.wholeSeconds && Mirrors(r, s) && p in s.running
    ensures Mirrors(RowDo(c, r, RowFinish(p, resp, reachable)).value, Do(c, s, Finish(p, resp, reachable)).value)
  {
    if reachable {
      var h := s.running[p];
      StepAgrees(r.t, s.t,
        if Keeps(c, resp) then CompleteE(h.key, AnswerOf(h.hash, resp), c.ttl) else ReleaseE(h.key), s.now);
    }
  }

  lemma StepMirrors(c: Config, r: RowSystem, s: System, step: Move)
    requires c.wholeSeconds && Mirrors(r, s)
    ensures RowDo(c, r, step).Some? <==> Do(c, s, InMemory(step)).Some?
    ensures RowDo(c, r, step).Some? ==> Mirrors(RowDo(c, r, step).value, Do(c, s, InMemory(step)).value)
  {
    match step
    case RowTick(d) => TimePasses(r.t, s.t, s.now, s.now + d);
    case RowRequest(p, key, hash, gone) => if p !in s.running { RequestMirrors(c, r, s, p, key, hash, gone); }
    case RowFinish(p, resp, reachable) => if p in s.running { FinishMirrors(c, r, s, p, resp, reachable); }
    case RowDelete(keys) => StepAgrees(r.t, s.t, TtlDelete(keys), s.now);
  }

  lemma {:induction false} RunMirrors(c: Config, steps: seq<Move>)
    requires c.wholeSeconds
    ensures RowRun(c, steps).Some? <==> Run(c, AllInMemory(steps)).Some?
    ensures RowRun(c, steps).Some? ==> Mirrors(RowRun(c, steps).value, Run(c, AllInMemory(steps)).value)
  {
    if steps != [] {
      var n := |steps| - 1;
      RunMirrors(c, steps[..n]);
      assert AllInMemory(steps)[..n] == AllInMemory(steps[..n]);
      if RowRun(c, steps[..n]).Some? {
        StepMirrors(c, RowRun(c, steps[..n]).value, Run(c, AllInMemory(steps[..n])).value, steps[n]);
      }
    }
  }

  /** Every handler of this key finished within its lease, all along the run over rows. */
  predicate RowPromptRun(c: Config, steps: seq<Move>, key: string) {
    && RowRun(c, steps).Some? && !KeyLate(c, RowRun(c, steps).value, key)
    && (steps == [] || RowPromptRun(c, steps[..|steps| - 1], key))
  }

  lemma {:induction false} PromptMirrors(c: Config, steps: seq<Move>, key: string)
    requires c.wholeSeconds && RowPromptRun(c, steps, key)
    ensures PromptRun(c, AllInMemory(steps), key)
  {
    RunMirrors(c, steps);
    if steps != [] {
      var n := |steps| - 1;
      PromptMirrors(c, steps[..n], key);
      assert AllInMemory(steps)[..n] == AllInMemory(steps[..n]);
    }
  }

  /**
   At most one handler of a key is in flight over the DynamoDB store too, whole
   seconds and lazy deletions included.
   */
  lemma OneHandlerPerRow(c: Config, steps: seq<Move>, p: nat, q: nat, key: string)
    requires c.wholeSeconds && RowPromptRun(c, steps, key)
    ensures var s := RowRun(c, steps).value;
            p in s.running && q in s.running && s.running[p].key == s.running[q].key == key ==> p == q
  {
    RunMirrors(c, steps);
    PromptMirrors(c, steps, key);
    OneHandlerPerKey(c, AllInMemory(steps), p, q, key);
  }

  predicate RowLateAfter(c: Config, steps: seq<Move>, key: string) {
    RowRun(c, steps).Some? && KeyLate(c, RowRun(c, steps).value, key)
  }

  /** Two handlers of a key over the DynamoDB store mean that one of that key was late, now or earlier in the run. */
  lemma DoubledRowsMeanLate(c: Config, steps: seq<Move>, p: nat, q: nat)
    requires c.wholeSeconds && RowRun(c, steps).Some? && p != q
    requires var s := RowRun(c, steps).value; p in s.running && q in s.running && s.running[p].key == s.running[q].key
    ensures exists n :: 0 <= n <= |steps| && RowLateAfter(c, steps[..n], RowRun(c, steps).value.running[p].key)
  {
    var key := RowRun(c, steps).value.running[p].key;
    if RowPromptRun(c, steps, key) {
      OneHandlerPerRow(c, steps, p, q, key);
    } else {
      var n := SomeoneLateInRows(c, steps, key);
    }
  }

  lemma {:induction false} SomeoneLateInRows(c: Config, steps: seq<Move>, key: string) returns (n: nat)
    requires RowRun(c, steps).Some? && !RowPromptRun(c, steps, key)
    ensures n <= |steps| && RowLateAfter(c, steps[..n], key)
  {
    n := |steps|;
    assert steps[..n] == steps;
    if !KeyLate(c, RowRun(c, steps).value, key) {
      n := SomeoneLateInRows(c, steps[..|steps| - 1], key);
      assert steps[..|steps| - 1][..n] == steps[..n];
    }
  }

  /** A request that memory refuses is refused by the table, with the same answer or told to wait. */
  lemma RefusalMirrors(c: Config, r: RowSystem, s: System, p: nat, key: string, hash: string, gone: bool, told: Claimed)
    requires c.wholeSeconds && Mirrors(r, s) && p !in r.running && told != Held
    requires ClaimUntil(s.t, key, hash, Expiry(c, s.now + c.lease), s.now).1 == told
    ensures Told(c, r, key, hash, gone) == if gone then InProgress else told
    ensures RowDo(c, r, RowRequest(p, key, hash, gone)) == Some(r)
  {
    StepAgrees(r.t, s.t, ClaimE(key, hash, c.lease), s.now);
  }

  /** The handlers and answers after the first n steps are the same in memory. */
  lemma SameBooks(c: Config, steps: seq<Move>, n: nat)
    requires c.wholeSeconds && n <= |steps| && RowRun(c, steps[..n]).Some?
    ensures Run(c, AllInMemory(steps)[..n]).Some?
    ensures var r, s := RowRun(c, steps[..n]).value, Run(c, AllInMemory(steps)[..n]).value;
            r.now == s.now && r.running == s.running && r.answers == s.answers
  {
    RunMirrors(c, steps[..n]);
    assert AllInMemory(steps)[..n] == AllInMemory(steps[..n]);
  }

  lemma SameBooksAtEnd(c: Config, steps: seq<Move>)
    requires c.wholeSeconds && RowRun(c, steps).Some?
    ensures Run(c, AllInMemory(steps)).Some?
    ensures var r, s := RowRun(c, steps).value, Run(c, AllInMemory(steps)).value;
            r.now == s.now && r.running == s.running && r.answers == s.answers
  {
    RunMirrors(c, steps);
  }

  lemma AnsweredInMemory(c: Config, steps: seq<Move>, n: nat, p: nat, key: string, hash: string)
    requires c.wholeSeconds && RowPromptRun(c, steps, key) && n <= |steps| && RowRun(c, steps[..n]).Some?
    requires key in RowRun(c, steps[..n]).value.answers && p !in RowRun(c, steps).value.running
    requires RowRun(c, steps).value.now < RowRun(c, steps[..n]).value.answers[key].until
    ensures Run(c, AllInMemory(steps)).Some?
    ensures var s, stored := Run(c, AllInMemory(steps)).value, RowRun(c, steps[..n]).value.answers[key].rec;
            ClaimUntil(s.t, key, hash, Expiry(c, s.now + c.lease), s.now).1 ==
              if hash == stored.hash then Replay(stored) else Conflict
  {
    var all := AllInMemory(steps);
    assert steps[..|steps|] == steps && all[..|steps|] == all;
    SameBooks(c, steps, n);
    SameBooks(c, steps, |steps|);
    PromptMirrors(c, steps, key);
    AnsweredIsReplayed(c, all, n, p, key, hash);
  }

  /**
   And an answer stored there at step n is replayed exactly, or refused to
   another request, until its TTL, or the request is told to wait; no handler runs.
   */
  lemma AnsweredRowIsReplayed(c: Config, steps: seq<Move>, n: nat, p: nat, key: string, hash: string, gone: bool)
    requires c.wholeSeconds && RowPromptRun(c, steps, key) && n <= |steps| && RowRun(c, steps[..n]).Some?
    requires key in RowRun(c, steps[..n]).value.answers && p !in RowRun(c, steps).value.running
    requires RowRun(c, steps).value.now < RowRun(c, steps[..n]).value.answers[key].until
    ensures var s, stored := RowRun(c, steps).value, RowRun(c, steps[..n]).value.answers[key].rec;
            && Told(c, s, key, hash, gone) ==
                 (if gone then InProgress else if hash == stored.hash then Replay(stored) else Conflict)
            && RowDo(c, s, RowRequest(p, key, hash, gone)) == Some(s)
  {
    var stored := RowRun(c, steps[..n]).value.answers[key].rec;
    AnsweredInMemory(c, steps, n, p, key, hash);
    RunMirrors(c, steps);
    RefusalMirrors(c, RowRun(c, steps).value, Run(c, AllInMemory(steps)).value, p, key, hash, gone,
      if hash == stored.hash then Replay(stored) else Conflict);
  }

  /** No handler of the key has recorded an answer over rows since the first n steps. */
  ghost predicate UnansweredRows(c: Config, steps: seq<Move>, n: nat, key: string) {
    forall m :: n <= m < |steps| && steps[m].RowFinish? && RowRun(c, steps[..m]).Some? ==>
      !Records(c, RowRun(c, steps[..m]).value, steps[m].p, steps[m].resp, steps[m].reachable, key)
  }

  lemma UnansweredMirrors(c: Config, steps: seq<Move>, n: nat, key: string)
    requires c.wholeSeconds && UnansweredRows(c, steps, n, key)
    ensures Unanswered(c, AllInMemory(steps), n, key)
  {
    var all := AllInMemory(steps);
    forall m | n <= m < |all| && all[m].Finish? && Run(c, all[..m]).Some?
      ensures !Records(c, Run(c, all[..m]).value, all[m].p, all[m].resp, all[m].reachable, key)
    {
      assert all[..m] == AllInMemory(steps[..m]);
      RunMirrors(c, steps[..m]);
      SameBooks(c, steps, m);
    }
  }

  /** Over the DynamoDB store too, in every run: replayed until its TTL, or told to wait, unless replaced. */
  lemma RowReplayedUnlessReplaced(c: Config, steps: seq<Move>, n: nat, p: nat, key: string, hash: string, gone: bool)
    requires c.wholeSeconds && RowRun(c, steps).Some? && n <= |steps| && RowRun(c, steps[..n]).Some?
    requires UnansweredRows(c, steps, n, key)
    requires key in RowRun(c, steps[..n]).value.answers && p !in RowRun(c, steps).value.running
    requires RowRun(c, steps).value.now < RowRun(c, steps[..n]).value.answers[key].until
    ensures var s, stored := RowRun(c, steps).value, RowRun(c, steps[..n]).value.answers[key].rec;
            && Told(c, s, key, hash, gone) ==
                 (if gone then InProgress else if hash == stored.hash then Replay(stored) else Conflict)
            && RowDo(c, s, RowRequest(p, key, hash, gone)) == Some(s)
  {
    var stored := RowRun(c, steps[..n]).value.answers[key].rec;
    ReplacedInMemory(c, steps, n, p, key, hash);
    RunMirrors(c, steps);
    RefusalMirrors(c, RowRun(c, steps).value, Run(c, AllInMemory(steps)).value, p, key, hash, gone,
      if hash == stored.hash then Replay(stored) else Conflict);
  }

  lemma ReplacedInMemory(c: Config, steps: seq<Move>, n: nat, p: nat, key: string, hash: string)
    requires c.wholeSeconds && RowRun(c, steps).Some? && n <= |steps| && RowRun(c, steps[..n]).Some?
    requires UnansweredRows(c, steps, n, key)
    requires key in RowRun(c, steps[..n]).value.answers && p !in RowRun(c, steps).value.running
    requires RowRun(c, steps).value.now < RowRun(c, steps[..n]).value.answers[key].until
    ensures Run(c, AllInMemory(steps)).Some?
    ensures var s, stored := Run(c, AllInMemory(steps)).value, RowRun(c, steps[..n]).value.answers[key].rec;
            ClaimUntil(s.t, key, hash, Expiry(c, s.now + c.lease), s.now).1 ==
              if hash == stored.hash then Replay(stored) else Conflict
  {
    SameBooks(c, steps, n);
    SameBooksAtEnd(c, steps);
    UnansweredMirrors(c, steps, n, key);
    ReplayedUnlessReplaced(c, AllInMemory(steps), n, p, key, hash);
  }

  /**
   Over rows: a second handler has started beside one that none of its key ended
   beside exactly if that one is late.
   */
  lemma SecondRowStartsIffLate(c: Config, steps: seq<Move>, p: nat, q: nat, hash: string, gone: bool)
    requires c.wholeSeconds && RowRun(c, steps).Some?
    requires p in RowRun(c, steps).value.untouched && q !in RowRun(c, steps).value.running
    ensures var s := RowRun(c, steps).value;
            && p in s.running && RowDo(c, s, RowRequest(q, s.running[p].key, hash, gone)).Some?
            && (p in RowDo(c, s, RowRequest(q, s.running[p].key, hash, gone)).value.joined <==>
                 Late(c, s, s.running[p]))
            && (Told(c, s, s.running[p].key, hash, gone) == Held ==> Late(c, s, s.running[p]))
  {
    RunMirrors(c, steps);
    var r, s := RowRun(c, steps).value, Run(c, AllInMemory(steps)).value;
    SecondStartsIffLate(c, AllInMemory(steps), p, q, hash);
    RequestMirrors(c, r, s, q, s.running[p].key, hash, gone);
  }

  /** The run in which a late release doubles a handler within its lease, over rows. */
  lemma LateReleaseDoublesRows(c: Config, key: string, hash: string, failure: Response) returns (steps: seq<Move>)
    requires c.wholeSeconds && c.lease > 0 && !Keeps(c, failure)
    ensures RowRun(c, steps).Some?
    ensures var s := RowRun(c, steps).value;
            && s.running == map[1 := Handler(key, hash, s.now), 2 := Handler(key, hash, s.now)]
            && !KeyLate(c, s, key)
  {
    steps := [RowRequest(0, key, hash, false), RowTick(Expiry(c, c.lease)), RowRequest(1, key, hash, false),
              RowFinish(0, failure, true), RowRequest(2, key, hash, false)];
    assert AllInMemory(steps) == LateReleaseRun(c, key, hash, failure);
    LateReleaseDoubles(c, key, hash, failure);
    RunMirrors(c, steps);
  }
}
