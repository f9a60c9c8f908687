/**
 The in-process token bucket with bounded memory (ratelimit/bucket.go), over
 real numbers: seconds and tokens are exact, so float rounding and the
 truncation of retryAfter to nanoseconds are not part of this model.
 */
module Bucket {
  import opened Options

  datatype Entry = Entry(tokens: real, at: real)

  datatype Config = Config(rate: real, burst: nat, maxKeys: nat)

  predicate ValidConfig(c: Config) { c.rate > 0.0 && c.burst >= 1 }

  type Entries = map<string, Entry>

  function Min(a: real, b: real): real { if a < b then a else b }

  /** What an entry holds at `now`. */
  function Refilled(c: Config, e: Entry, now: real): real {
    Min(c.burst as real, e.tokens + (now - e.at) * c.rate)
  }

  predicate Idle(c: Config, e: Entry, now: real) { Refilled(c, e, now) >= c.burst as real }

  function WithoutIdle(c: Config, t: Entries, now: real): Entries {
    map k | k in t && !Idle(c, t[k], now) :: t[k]
  }

  datatype Answer = Answer(ok: bool, retryAfter: real)

  /** One token from a bucket that held `e`. */
  function Take(c: Config, e: Entry, now: real): (Entry, Answer)
    requires c.rate > 0.0
  {
    var tokens := Refilled(c, e, now);
    if tokens >= 1.0 then (Entry(tokens - 1.0, now), Answer(true, 0.0))
    else (Entry(tokens, now), Answer(false, (1.0 - tokens) / c.rate))
  }

  /** The bucket a key starts from: its own, or a full one. */
  function Start(c: Config, t: Entries, key: string, now: real): Entry {
    if key in t then t[key] else Entry(c.burst as real, now)
  }

  /** The table once room was sought for `key`. */
  function Trimmed(c: Config, t: Entries, key: string, now: real): Entries {
    if key !in t && |t| >= c.maxKeys then WithoutIdle(c, t, now) else t
  }

  /** No room even after dropping the idle: the call is let through uncounted. */
  predicate Bypassed(c: Config, t: Entries, key: string, now: real) {
    key !in t && |Trimmed(c, t, key, now)| >= c.maxKeys
  }

  function Allow(c: Config, t: Entries, key: string, now: real): (Entries, Answer)
    requires c.rate > 0.0
  {
    var t' := Trimmed(c, t, key, now);
    if Bypassed(c, t, key, now) then (t', Answer(true, 0.0))
    else
      var (e, a) := Take(c, Start(c, t, key, now), now);
      (t'[key := e], a)
  }

  class Limiter {
    const c: Config
    var entries: Entries

    constructor (c: Config) ensures this.c == c && entries == map[] { this.c, entries := c, map[]; }

    method TryTake(key: string, now: real) returns (a: Answer)
      requires ValidConfig(c)
      modifies this
      ensures (entries, a) == Allow(c, old(entries), key, now)
    {
      if key !in entries {
        if |entries| >= c.maxKeys {
          DropIdle(now);
          if |entries| >= c.maxKeys { return Answer(true, 0.0); }
        }
        entries := entries[key := Entry(c.burst as real, now)];
      }
      assert entries == Trimmed(c, old(entries), key, now)[key := Start(c, old(entries), key, now)];
      var tokens := Refilled(c, entries[key], now);
      ghost var trimmed := Trimmed(c, old(entries), key, now);
      if tokens >= 1.0 {
        entries := entries[key := Entry(tokens - 1.0, now)];
        assert entries == trimmed[key := Entry(tokens - 1.0, now)];
        return Answer(true, 0.0);
      }
      entries := entries[key := Entry(tokens, now)];
      assert entries == trimmed[key := Entry(tokens, now)];
      return Answer(false, (1.0 - tokens) / c.rate);
    }

    method DropIdle(now: real)
      modifies this
      ensures entries == WithoutIdle(c, old(entries), now)
    {
      var left := entries.Keys;
      while left != {}
        invariant left <= old(entries).Keys
        invariant forall k :: k in entries <==> k in old(entries) && (k in left || !Idle(c, old(entries)[k], now))
        invariant forall k :: k in entries ==> entries[k] == old(entries)[k]
        decreases left
      {
        var k :| k in left;
        if Refilled(c, entries[k], now) >= c.burst as real {
          entries := entries - {k};
        }
        left := left - {k};
      }
    }
  }

  // ---- Runs ---------------------------------------------------------------------------------

  datatype Call = Call(key: string, now: real)

  predicate InOrder(calls: seq<Call>) {
    forall i, j :: 0 <= i < j < |calls| ==> calls[i].now <= calls[j].now
  }

  function Run(c: Config, calls: seq<Call>): (Entries, seq<Answer>)
    requires c.rate > 0.0
  {
    if calls == [] then (map[], [])
    else
      var (t, answers) := Run(c, calls[..|calls| - 1]);
      var (t', a) := Allow(c, t, calls[|calls| - 1].key, calls[|calls| - 1].now);
      (t', answers + [a])
  }

  /** `key` never meets a full table. */
  ghost predicate NeverBypassed(c: Config, calls: seq<Call>, key: string)
    requires c.rate > 0.0
  {
    forall n :: 0 <= n < |calls| && calls[n].key == key ==> !Bypassed(c, Run(c, calls[..n]).0, key, calls[n].now)
  }

  // ---- Dropping idle buckets is unobservable -----------------------------------------------------

  /** The same calls with nothing ever dropped or bypassed: each key's bucket on its own. */
  function Alone(c: Config, calls: seq<Call>, key: string): (Option<Entry>, seq<Answer>)
    requires c.rate > 0.0
  {
    if calls == [] then (None, [])
    else
      var (e, answers) := Alone(c, calls[..|calls| - 1], key);
      var last := calls[|calls| - 1];
      if last.key != key then (e, answers)
      else
        var (e', a) := Take(c, if e.Some? then e.value else Entry(c.burst as real, last.now), last.now);
        (Some(e'), answers + [a])
  }

  /** The answers `key` got in the real run, in order. */
  function AnswersFor(calls: seq<Call>, answers: seq<Answer>, key: string): seq<Answer>
    requires |calls| == |answers|
  {
    if calls == [] then []
    else
      var n := |calls| - 1;
      AnswersFor(calls[..n], answers[..n], key) + (if calls[n].key == key then [answers[n]] else [])
  }

  /** The table's bucket for the key is the lone one, or was dropped when that one was full again. */
  ghost predicate Same(c: Config, t: Entries, key: string, e: Option<Entry>, now: real) {
    if key in t then e == Some(t[key]) && t[key].at <= now
    else e.Some? ==> Idle(c, e.value, now) && e.value.at <= now
  }

  lemma IdleStays(c: Config, e: Entry, now: real, later: real)
    requires c.rate > 0.0 && Idle(c, e, now) && now <= later
    ensures Idle(c, e, later) && Refilled(c, e, later) == c.burst as real
  {
    var earned, more := (now - e.at) * c.rate, (later - e.at) * c.rate;
    assert earned <= more by { MoreTimeEarnsMore(now - e.at, later - e.at, c.rate); }
    assert Refilled(c, e, now) == Min(c.burst as real, e.tokens + earned);
    assert Refilled(c, e, later) == Min(c.burst as real, e.tokens + more);
  }

  lemma MoreTimeEarnsMore(a: real, b: real, r: real)
    requires a <= b && r > 0.0
    ensures a * r <= b * r
  {}

  /** Taking from a bucket that refilled completely is taking from a full one. */
  lemma FullIsFresh(c: Config, e: Entry, now: real)
    requires c.rate > 0.0 && Idle(c, e, now)
    ensures Take(c, e, now) == Take(c, Entry(c.burst as real, now), now)
  {
    assert (now - now) * c.rate == 0.0;
  }

  lemma SameAfter(c: Config, t: Entries, key: string, e: Option<Entry>, call: Call, before: real)
    requires c.rate > 0.0 && Same(c, t, key, e, before) && before <= call.now
    requires call.key == key ==> !Bypassed(c, t, key, call.now)
    ensures var (t', a) := Allow(c, t, call.key, call.now);
            if call.key == key then
              var (e', a') := Take(c, if e.Some? then e.value else Entry(c.burst as real, call.now), call.now);
              a == a' && Same(c, t', key, Some(e'), call.now)
            else Same(c, t', key, e, call.now)
  {
    if key !in t && e.Some? { IdleStays(c, e.value, before, call.now); }
    if call.key == key {
      if key !in t && e.Some? { FullIsFresh(c, e.value, call.now); }
    }
  }

  /**
   For a key that never meets a full table, the bounded limiter answers exactly
   as one with a bucket of its own forever.
   */
  lemma {:induction false} DroppingIsUnobservable(c: Config, calls: seq<Call>, key: string)
    requires c.rate > 0.0 && InOrder(calls) && NeverBypassed(c, calls, key)
    ensures |Run(c, calls).1| == |calls|
    ensures AnswersFor(calls, Run(c, calls).1, key) == Alone(c, calls, key).1
    ensures calls != [] ==> Same(c, Run(c, calls).0, key, Alone(c, calls, key).0, calls[|calls| - 1].now)
  {
    if calls != [] {
      var n := |calls| - 1;
      var init, last := calls[..n], calls[n];
      forall i | 0 <= i < |init| && init[i].key == key ensures !Bypassed(c, Run(c, init[..i]).0, key, init[i].now) {
        assert init[..i] == calls[..i];
      }
      DroppingIsUnobservable(c, init, key);
      var t := Run(c, init).0;
      var before := if init == [] then last.now else init[|init| - 1].now;
      SameAfter(c, t, key, Alone(c, init, key).0, last, before);
      assert Run(c, calls).1[..n] == Run(c, init).1;
    }
  }

  // ---- The rate ------------------------------------------------------------------------------------

  /** The key's own bucket after these calls. */
  function Own(c: Config, calls: seq<Call>, key: string): Option<Entry>
    requires c.rate > 0.0
  {
    Alone(c, calls, key).0
  }

  /** Tokens the key could draw on at `now`. */
  function Worth(c: Config, e: Option<Entry>, now: real): real {
    if e.None? then c.burst as real else Refilled(c, e.value, now)
  }

  predicate Sane(c: Config, e: Option<Entry>, now: real) {
    e.Some? ==> 0.0 <= e.value.tokens <= c.burst as real && e.value.at <= now
  }

  lemma Scale(a: real, b: real, r: real)
    ensures (a + b) * r == a * r + b * r
    ensures a >= 0.0 && r > 0.0 ==> a * r >= 0.0
  {}

  /** Waiting earns at most rate times the wait. */
  lemma WorthGrows(c: Config, e: Option<Entry>, now: real, later: real)
    requires ValidConfig(c) && now <= later
    ensures Worth(c, e, later) <= Worth(c, e, now) + (later - now) * c.rate
  {
    Scale(later - now, 0.0, c.rate);
    if e.Some? {
      Scale(now - e.value.at, later - now, c.rate);
      assert (now - e.value.at) + (later - now) == later - e.value.at;
    }
  }

  /** A take spends what it admits. */
  lemma TakeSpends(c: Config, e: Option<Entry>, now: real)
    requires ValidConfig(c) && Sane(c, e, now)
    ensures var (e', a) := Take(c, if e.Some? then e.value else Entry(c.burst as real, now), now);
            && Sane(c, Some(e'), now)
            && Worth(c, Some(e'), now) + (if a.ok then 1.0 else 0.0) == Worth(c, e, now)
  {
    var start := if e.Some? then e.value else Entry(c.burst as real, now);
    var (e', a) := Take(c, start, now);
    var earned := (now - start.at) * c.rate;
    assert earned >= 0.0 by { Scale(now - start.at, 0.0, c.rate); }
    RefillBounds(c, start, now, earned);
    RefillBounds(c, e', now, 0.0);
    assert Refilled(c, start, now) == Worth(c, e, now);
  }

  lemma {:induction false} OwnIsSane(c: Config, calls: seq<Call>, key: string, now: real)
    requires ValidConfig(c) && InOrder(calls)
    requires calls != [] ==> calls[|calls| - 1].now <= now
    ensures Sane(c, Own(c, calls, key), now)
  {
    if calls != [] {
      var last := calls[|calls| - 1];
      OwnIsSane(c, calls[..|calls| - 1], key, last.now);
      TakeSpends(c, Own(c, calls[..|calls| - 1], key), last.now);
    }
  }

  /** Calls of `key` admitted from position i on. */
  function AdmittedSince(c: Config, calls: seq<Call>, key: string, i: nat): nat
    requires c.rate > 0.0
  {
    if |calls| <= i then 0
    else
      var init, last := calls[..|calls| - 1], calls[|calls| - 1];
      AdmittedSince(c, init, key, i) +
        (if last.key == key && Allow(c, Run(c, init).0, key, last.now).1.ok then 1 else 0)
  }

  /** In the bounded table, a call of a never bypassed key is a take from its own bucket. */
  lemma AllowIsOwnTake(c: Config, calls: seq<Call>, key: string)
    requires c.rate > 0.0 && InOrder(calls) && NeverBypassed(c, calls, key)
    requires calls != [] && calls[|calls| - 1].key == key
    ensures var init, last := calls[..|calls| - 1], calls[|calls| - 1];
            var e := Own(c, init, key);
            Allow(c, Run(c, init).0, key, last.now).1 ==
              Take(c, if e.Some? then e.value else Entry(c.burst as real, last.now), last.now).1
  {
    var n := |calls| - 1;
    var init, last := calls[..n], calls[n];
    NeverBypassedInit(c, calls, key);
    DroppingIsUnobservable(c, init, key);
    var before := if init == [] then last.now else init[|init| - 1].now;
    SameAfter(c, Run(c, init).0, key, Own(c, init, key), last, before);
  }

  lemma NeverBypassedInit(c: Config, calls: seq<Call>, key: string)
    requires c.rate > 0.0 && InOrder(calls) && NeverBypassed(c, calls, key) && calls != []
    ensures InOrder(calls[..|calls| - 1]) && NeverBypassed(c, calls[..|calls| - 1], key)
  {
    var init := calls[..|calls| - 1];
    forall i | 0 <= i < |init| && init[i].key == key ensures !Bypassed(c, Run(c, init[..i]).0, key, init[i].now) {
      assert init[..i] == calls[..i];
    }
  }

  /** Tokens spent since `s`, plus tokens left, never exceed a full bucket plus what time refilled. */
  predicate WithinBudget(c: Config, spent: nat, e: Option<Entry>, s: real, now: real) {
    spent as real + Worth(c, e, now) <= c.burst as real + (now - s) * c.rate
  }

  lemma BudgetWaits(c: Config, spent: nat, e: Option<Entry>, s: real, now: real, later: real)
    requires ValidConfig(c) && WithinBudget(c, spent, e, s, now) && now <= later
    ensures WithinBudget(c, spent, e, s, later)
  {
    WorthGrows(c, e, now, later);
    Scale(now - s, later - now, c.rate);
    assert (now - s) + (later - now) == later - s;
  }

  lemma BudgetTakes(c: Config, spent: nat, e: Option<Entry>, s: real, now: real)
    requires ValidConfig(c) && Sane(c, e, now) && WithinBudget(c, spent, e, s, now)
    ensures var (e', a) := Take(c, if e.Some? then e.value else Entry(c.burst as real, now), now);
            WithinBudget(c, if a.ok then spent + 1 else spent, Some(e'), s, now)
  {
    TakeSpends(c, e, now);
  }

  lemma {:induction false} TokensAreConserved(c: Config, calls: seq<Call>, key: string, i: nat, s: real)
    requires ValidConfig(c) && InOrder(calls) && NeverBypassed(c, calls, key)
    requires i < |calls| && s <= calls[i].now
    ensures WithinBudget(c, AdmittedSince(c, calls, key, i), Own(c, calls, key), s, calls[|calls| - 1].now)
  {
    var n := |calls| - 1;
    var init, last := calls[..n], calls[n];
    NeverBypassedInit(c, calls, key);
    OwnIsSane(c, init, key, last.now);
    var e, spent := Own(c, init, key), AdmittedSince(c, init, key, i);
    if i < n {
      TokensAreConserved(c, init, key, i, s);
      BudgetWaits(c, spent, e, s, init[n - 1].now, last.now);
    } else {
      Scale(last.now - s, 0.0, c.rate);
    }
    assert WithinBudget(c, spent, e, s, last.now);
    if last.key == key {
      AllowIsOwnTake(c, calls, key);
      BudgetTakes(c, spent, e, s, last.now);
    }
  }

  /** So many admissions from `s` to `now` are within burst plus rate times the time. */
  predicate WithinRate(c: Config, n: nat, s: real, now: real) { n as real <= c.burst as real + (now - s) * c.rate }

  /**
   Whatever the other keys do, a key that never meets a full table is admitted
   at most burst + rate * (t - s) times by its calls within [s, t].
   */
  lemma RateIsBounded(c: Config, calls: seq<Call>, key: string, i: nat, s: real, t: real)
    requires ValidConfig(c) && InOrder(calls) && NeverBypassed(c, calls, key)
    requires i < |calls| && s <= calls[i].now && calls[|calls| - 1].now <= t
    ensures WithinRate(c, AdmittedSince(c, calls, key, i), s, t)
  {
    var now := calls[|calls| - 1].now;
    TokensAreConserved(c, calls, key, i, s);
    OwnIsSane(c, calls, key, now);
    BudgetBounds(c, AdmittedSince(c, calls, key, i), Own(c, calls, key), s, now, t);
  }

  lemma BudgetBounds(c: Config, spent: nat, e: Option<Entry>, s: real, now: real, t: real)
    requires ValidConfig(c) && Sane(c, e, now) && WithinBudget(c, spent, e, s, now) && now <= t
    ensures WithinRate(c, spent, s, t)
  {
    WorthIsPositive(c, e, now);
    Scale(t - now, now - s, c.rate);
    assert (t - now) + (now - s) == t - s;
  }

  lemma WorthIsPositive(c: Config, e: Option<Entry>, now: real)
    requires ValidConfig(c) && Sane(c, e, now)
    ensures Worth(c, e, now) >= 0.0
  {
    if e.Some? {
      var earned := (now - e.value.at) * c.rate;
      assert earned >= 0.0 by { Scale(now - e.value.at, 0.0, c.rate); }
      RefillBounds(c, e.value, now, earned);
    }
  }

  lemma RefillBounds(c: Config, e: Entry, now: real, earned: real)
    requires c.burst >= 1 && e.tokens >= 0.0 && earned >= 0.0 && earned == (now - e.at) * c.rate
    ensures 0.0 <= Refilled(c, e, now) <= c.burst as real
    ensures Refilled(c, e, now) == Min(c.burst as real, e.tokens + earned)
  {}

  /** A lone bucket that refused has its token once retryAfter is over, and not before. */
  lemma WaitIsExact(c: Config, e: Entry, now: real, later: real)
    requires ValidConfig(c) && now <= later
    requires !Take(c, e, now).1.ok
    ensures var (e', a) := Take(c, e, now);
            a.retryAfter > 0.0 && (Take(c, e', later).1.ok <==> later - now >= a.retryAfter)
  {
    var (e', a) := Take(c, e, now);
    assert a.retryAfter * c.rate == 1.0 - e'.tokens;
    if later - now >= a.retryAfter {
      Scale(later - now - a.retryAfter, a.retryAfter, c.rate);
    } else {
      StrictScale(later - now, a.retryAfter, c.rate);
    }
  }

  lemma StrictScale(a: real, b: real, r: real)
    requires a < b && r > 0.0
    ensures a * r < b * r
  {}

  /** What the last of these calls is answered. */
  function AnswerTo(c: Config, calls: seq<Call>): Answer
    requires c.rate > 0.0 && calls != []
  {
    var last := calls[|calls| - 1];
    Allow(c, Run(c, calls[..|calls| - 1]).0, last.key, last.now).1
  }

  function OwnOrFull(c: Config, own: Option<Entry>, now: real): Entry {
    if own.Some? then own.value else Entry(c.burst as real, now)
  }

  lemma AnswerIsOwnTake(c: Config, calls: seq<Call>, key: string, now: real)
    requires c.rate > 0.0 && InOrder(calls + [Call(key, now)]) && NeverBypassed(c, calls + [Call(key, now)], key)
    ensures var (e, a) := Take(c, OwnOrFull(c, Own(c, calls, key), now), now);
            AnswerTo(c, calls + [Call(key, now)]) == a && Own(c, calls + [Call(key, now)], key) == Some(e)
  {
    var all := calls + [Call(key, now)];
    assert all[..|all| - 1] == calls;
    AllowIsOwnTake(c, all, key);
  }

  lemma PrefixInOrder(c: Config, calls: seq<Call>, n: nat, key: string)
    requires c.rate > 0.0 && InOrder(calls) && NeverBypassed(c, calls, key) && n <= |calls|
    ensures InOrder(calls[..n]) && NeverBypassed(c, calls[..n], key)
  {
    forall i | 0 <= i < n && calls[..n][i].key == key
      ensures !Bypassed(c, Run(c, calls[..n][..i]).0, key, calls[..n][i].now)
    {
      assert calls[..n][..i] == calls[..i];
    }
  }

  /** Calls of other keys leave the key's own bucket alone. */
  lemma {:induction false} OthersLeaveItAlone(c: Config, calls: seq<Call>, others: seq<Call>, key: string)
    requires c.rate > 0.0 && forall o :: o in others ==> o.key != key
    ensures Own(c, calls + others, key) == Own(c, calls, key)
  {
    if others == [] {
      assert calls + others == calls;
    } else {
      var init := others[..|others| - 1];
      assert (calls + others)[..|calls + others| - 1] == calls + init;
      OthersLeaveItAlone(c, calls, init, key);
    }
  }

  /**
   retryAfter is exact. When a call is refused and only other keys call in
   between, however the table is trimmed meanwhile, the key's next call is
   admitted if it comes retryAfter later or more, and refused if it comes sooner.
   */
  lemma RetryAfterIsExact(c: Config, before: seq<Call>, others: seq<Call>, key: string, refusedAt: real, now: real)
    requires ValidConfig(c) && forall o :: o in others ==> o.key != key
    requires var all := before + [Call(key, refusedAt)] + others + [Call(key, now)];
             InOrder(all) && NeverBypassed(c, all, key)
    requires !AnswerTo(c, before + [Call(key, refusedAt)]).ok
    ensures AnswerTo(c, before + [Call(key, refusedAt)] + others + [Call(key, now)]).ok <==>
              now - refusedAt >= AnswerTo(c, before + [Call(key, refusedAt)]).retryAfter
  {
    var first := before + [Call(key, refusedAt)];
    var all := first + others + [Call(key, now)];
    assert all[..|first|] == first;
    PrefixInOrder(c, all, |first|, key);
    assert all[|first| - 1].now <= all[|all| - 1].now;
    OthersLeaveItAlone(c, first, others, key);
    NextTake(c, before, first + others, key, refusedAt, now);
  }

  /** The key's own bucket decides, wherever the table went in between. */
  lemma NextTake(c: Config, before: seq<Call>, between: seq<Call>, key: string, refusedAt: real, now: real)
    requires ValidConfig(c) && refusedAt <= now
    requires InOrder(before + [Call(key, refusedAt)]) && NeverBypassed(c, before + [Call(key, refusedAt)], key)
    requires InOrder(between + [Call(key, now)]) && NeverBypassed(c, between + [Call(key, now)], key)
    requires Own(c, between, key) == Own(c, before + [Call(key, refusedAt)], key)
    requires !AnswerTo(c, before + [Call(key, refusedAt)]).ok
    ensures AnswerTo(c, between + [Call(key, now)]).ok <==>
              now - refusedAt >= AnswerTo(c, before + [Call(key, refusedAt)]).retryAfter
  {
    AnswerIsOwnTake(c, before, key, refusedAt);
    AnswerIsOwnTake(c, between, key, now);
    WaitIsExact(c, OwnOrFull(c, Own(c, before, key), refusedAt), refusedAt, now);
  }

  // ---- No admission is withheld -----------------------------------------------------------------

  /** Since `s`, burst and what time earned, less what was spent, is all that is left. */
  predicate Account(c: Config, e: Entry, s: real, spent: nat) {
    e.tokens == c.burst as real + (e.at - s) * c.rate - spent as real
  }

  function One(ok: bool): nat { if ok then 1 else 0 }

  /** A take from a full bucket starts a new account. */
  lemma AccountStarts(c: Config, e: Option<Entry>, now: real)
    requires ValidConfig(c) && Worth(c, e, now) == c.burst as real
    ensures var (e', a) := Take(c, OwnOrFull(c, e, now), now); Account(c, e', now, One(a.ok))
  {
    var start := OwnOrFull(c, e, now);
    assert (now - now) * c.rate == 0.0;
    assert Refilled(c, start, now) == c.burst as real;
  }

  /** A take from a bucket that is not full goes on the running account. */
  lemma AccountGoesOn(c: Config, e: Entry, now: real, s: real, spent: nat)
    requires ValidConfig(c) && Account(c, e, s, spent) && Refilled(c, e, now) != c.burst as real
    ensures var (e', a) := Take(c, e, now); Account(c, e', s, spent + One(a.ok))
    ensures Refilled(c, e, now) == c.burst as real + (now - s) * c.rate - spent as real
  {
    Scale(now - e.at, e.at - s, c.rate);
    assert (now - e.at) + (e.at - s) == now - s;
  }

  /** One more call of the key: a take from its own bucket, counted since every earlier call. */
  lemma OneMoreTake(c: Config, calls: seq<Call>, key: string, now: real, i: nat)
    requires c.rate > 0.0 && InOrder(calls + [Call(key, now)]) && NeverBypassed(c, calls + [Call(key, now)], key)
    requires i <= |calls|
    ensures var (e, a) := Take(c, OwnOrFull(c, Own(c, calls, key), now), now);
            && Own(c, calls + [Call(key, now)], key) == Some(e)
            && AdmittedSince(c, calls + [Call(key, now)], key, i) == AdmittedSince(c, calls, key, i) + One(a.ok)
  {
    assert (calls + [Call(key, now)])[..|calls|] == calls;
    AnswerIsOwnTake(c, calls, key, now);
  }

  /** What is in the key's own bucket is accounted for from some earlier call on. */
  ghost predicate Accounted(c: Config, calls: seq<Call>, key: string, i: nat)
    requires c.rate > 0.0
  {
    && i < |calls| && Own(c, calls, key).Some?
    && Account(c, Own(c, calls, key).value, calls[i].now, AdmittedSince(c, calls, key, i))
  }

  lemma TakeIsAccounted(c: Config, calls: seq<Call>, key: string, now: real, j: nat) returns (i: nat)
    requires ValidConfig(c) && InOrder(calls + [Call(key, now)]) && NeverBypassed(c, calls + [Call(key, now)], key)
    requires Own(c, calls, key).Some? ==> Accounted(c, calls, key, j)
    ensures Accounted(c, calls + [Call(key, now)], key, i)
  {
    var own := Own(c, calls, key);
    if Worth(c, own, now) == c.burst as real {
      i := |calls|;
      OneMoreTake(c, calls, key, now, i);
      AccountStarts(c, own, now);
    } else {
      i := j;
      OneMoreTake(c, calls, key, now, i);
      AccountGoesOn(c, own.value, now, calls[j].now, AdmittedSince(c, calls, key, j));
    }
  }

  lemma {:induction false} BucketIsAccountedFor(c: Config, calls: seq<Call>, key: string) returns (i: nat)
    requires ValidConfig(c) && InOrder(calls) && NeverBypassed(c, calls, key)
    ensures Own(c, calls, key).Some? ==> Accounted(c, calls, key, i)
  {
    i := 0;
    if calls != [] {
      var init, last := calls[..|calls| - 1], calls[|calls| - 1];
      assert calls == init + [last];
      NeverBypassedInit(c, calls, key);
      i := BucketIsAccountedFor(c, init, key);
      if last.key == key { i := TakeIsAccounted(c, init, key, last.now, i); }
    }
  }

  /** One more admission now stays within what call i and the time since allow. */
  predicate WithinBudgetSince(c: Config, calls: seq<Call>, key: string, i: nat, now: real)
    requires c.rate > 0.0 && i < |calls|
  {
    WithinRate(c, AdmittedSince(c, calls, key, i) + 1, calls[i].now, now)
  }

  lemma CountsTheLast(c: Config, calls: seq<Call>, key: string, now: real, i: nat)
    requires c.rate > 0.0 && i <= |calls|
    ensures AdmittedSince(c, calls + [Call(key, now)], key, i) ==
              AdmittedSince(c, calls, key, i) + One(AnswerTo(c, calls + [Call(key, now)]).ok)
  {
    assert (calls + [Call(key, now)])[..|calls|] == calls;
  }

  lemma AdmittedStaysWithin(c: Config, calls: seq<Call>, key: string, now: real, i: nat)
    requires ValidConfig(c) && InOrder(calls + [Call(key, now)]) && NeverBypassed(c, calls + [Call(key, now)], key)
    requires i < |calls|
    requires AdmittedSince(c, calls + [Call(key, now)], key, i) == AdmittedSince(c, calls, key, i) + 1
    ensures WithinBudgetSince(c, calls, key, i, now)
  {
    RateIsBounded(c, calls + [Call(key, now)], key, i, calls[i].now, now);
  }

  lemma RefusedIsExhausted(c: Config, calls: seq<Call>, key: string, now: real) returns (i: nat)
    requires ValidConfig(c) && InOrder(calls) && NeverBypassed(c, calls, key)
    requires !Take(c, OwnOrFull(c, Own(c, calls, key), now), now).1.ok
    ensures i < |calls| && !WithinBudgetSince(c, calls, key, i, now)
  {
    var own := Own(c, calls, key);
    assert (now - now) * c.rate == 0.0;
    i := BucketIsAccountedFor(c, calls, key);
    AccountGoesOn(c, own.value, now, calls[i].now, AdmittedSince(c, calls, key, i));
  }

  /**
   A call of a key that never meets a full table is admitted if and only if
   budget is left: since no earlier call of the run, this admission included, is
   the key admitted more often than burst plus rate times the time since.
   */
  lemma AdmittedIffWithinBudget(c: Config, calls: seq<Call>, key: string, now: real)
    requires ValidConfig(c)
    requires InOrder(calls + [Call(key, now)]) && NeverBypassed(c, calls + [Call(key, now)], key)
    ensures AnswerTo(c, calls + [Call(key, now)]).ok <==>
              forall i :: 0 <= i < |calls| ==> WithinBudgetSince(c, calls, key, i, now)
  {
    var all := calls + [Call(key, now)];
    assert all[..|calls|] == calls;
    AnswerIsOwnTake(c, calls, key, now);
    if AnswerTo(c, all).ok {
      forall i | 0 <= i < |calls| ensures WithinBudgetSince(c, calls, key, i, now) {
        CountsTheLast(c, calls, key, now, i);
        AdmittedStaysWithin(c, calls, key, now, i);
      }
    } else {
      PrefixInOrder(c, all, |calls|, key);
      var i := RefusedIsExhausted(c, calls, key, now);
    }
  }

  // ---- The table ---------------------------------------------------------------------------------

  /** These keys' buckets are not full by now. */
  ghost predicate Busy(c: Config, t: Entries, now: real, busy: set<string>) {
    forall k :: k in busy <==> k in t && Refilled(c, t[k], now) < c.burst as real
  }

  /**
   A key is let through uncounted exactly when it is new and as many others as
   the table may hold are not full yet.
   */
  lemma BypassedIffCrowded(c: Config, t: Entries, key: string, now: real, busy: set<string>)
    requires c.rate > 0.0 && Busy(c, t, now, busy)
    ensures Bypassed(c, t, key, now) <==> key !in t && |busy| >= c.maxKeys
    ensures Bypassed(c, t, key, now) <==> key !in Allow(c, t, key, now).0
    ensures Bypassed(c, t, key, now) ==> Allow(c, t, key, now).1 == Answer(true, 0.0)
  {
    assert WithoutIdle(c, t, now).Keys == busy;
    if |t| < c.maxKeys { SubsetIsSmaller(busy, t.Keys); }
  }

  lemma SubsetIsSmaller(a: set<string>, b: set<string>)
    requires a <= b
    ensures |a| <= |b|
  {
    if a != {} {
      var x :| x in a;
      SubsetIsSmaller(a - {x}, b - {x});
    }
  }

  /** The table never holds more than maxKeys buckets. */
  lemma {:induction false} TableIsBounded(c: Config, calls: seq<Call>)
    requires c.rate > 0.0 && c.maxKeys >= 1
    ensures |Run(c, calls).0| <= c.maxKeys
  {
    if calls != [] {
      var t, last := Run(c, calls[..|calls| - 1]).0, calls[|calls| - 1];
      TableIsBounded(c, calls[..|calls| - 1]);
      var t' := Trimmed(c, t, last.key, last.now);
      SubsetIsSmaller(WithoutIdle(c, t, last.now).Keys, t.Keys);
      var e := Take(c, Start(c, t, last.key, last.now), last.now).0;
      if last.key in t {
        assert t[last.key := e].Keys == t.Keys;
      } else {
        assert t'[last.key := e].Keys == t'.Keys + {last.key};
      }
    }
  }
}
