/**
 Fixed-window counting on the in-memory counter (ratelimit/counter.go) and the
 limiter on top of it (ratelimit/ratelimit.go). Where the code reads the clock
 twice, `now` is the reading that decides and `later` the one that dates the window.
 */
module Counter {

  datatype Entry = Entry(n: nat, expires: int)

  type Entries = map<string, Entry>

  /** The key has no window, or its window is over. */
  predicate Over(t: Entries, key: string, now: int) { key !in t || now > t[key].expires }

  function Incr(t: Entries, key: string, window: int, now: int, later: int): (Entries, nat) {
    if Over(t, key, now) then (t[key := Entry(1, later + window)], 1)
    else (t[key := t[key].(n := t[key].n + 1)], t[key].n + 1)
  }

  function Count(t: Entries, key: string, now: int): nat { if Over(t, key, now) then 0 else t[key].n }

  function TTL(t: Entries, key: string, now: int): int {
    if key !in t || t[key].expires - now < 0 then 0 else t[key].expires - now
  }

  class MemoryCounter {
    var entries: Entries

    constructor () ensures entries == map[] { entries := map[]; }

    method Increment(key: string, window: int, now: int, later: int) returns (n: nat)
      modifies this
      ensures (entries, n) == Incr(old(entries), key, window, now, later)
    {
      var e := Entry(0, 0);
      if key in entries { e := entries[key]; }
      if key !in entries || now > e.expires { e := Entry(0, later + window); }
      e := e.(n := e.n + 1);
      entries := entries[key := e];
      n := e.n;
    }

    method Read(key: string, now: int) returns (n: nat)
      ensures n == Count(entries, key, now)
    {
      if key !in entries || now > entries[key].expires { return 0; }
      n := entries[key].n;
    }

    method Left(key: string, now: int) returns (d: int)
      ensures d == TTL(entries, key, now)
    {
      if key !in entries { return 0; }
      d := entries[key].expires - now;
      if d < 0 { d := 0; }
    }

    method Delete(key: string)
      modifies this
      ensures entries == old(entries) - {key}
    {
      entries := entries - {key};
    }
  }

  datatype Outcome = Allow | Deny | Unavailable

  /** Max counted events per Window and identity; `failClosed` stands for either spelling of the flag. */
  class Limiter {
    const counter: MemoryCounter
    const prefix: string
    const max: int
    const window: int
    const failClosed: bool

    constructor (counter: MemoryCounter, prefix: string, max: int, window: int, failClosed: bool)
      ensures this.counter == counter && this.prefix == prefix && this.max == max
      ensures this.window == window && this.failClosed == failClosed
    {
      this.counter, this.prefix, this.max, this.window, this.failClosed := counter, prefix, max, window, failClosed;
    }

    function Key(id: string): string { "rl:" + prefix + ":" + id }

    function OnError(): Outcome { if failClosed then Unavailable else Allow }

    /** Counts one event and decides; `broken` is a counter that could not be reached. */
    method Take(id: string, now: int, later: int, broken: bool) returns (out: Outcome)
      modifies counter
      ensures broken ==> out == OnError() && counter.entries == old(counter.entries)
      ensures !broken ==>
                var (t, n) := Incr(old(counter.entries), Key(id), window, now, later);
                counter.entries == t && (out == Allow <==> n <= max) && out != Unavailable
    {
      if broken { return OnError(); }
      var n := counter.Increment(Key(id), window, now, later);
      out := if n > max then Deny else Allow;
    }

    method CheckFailures(id: string, now: int, broken: bool) returns (out: Outcome)
      ensures broken ==> out == OnError()
      ensures !broken ==> (out == Deny <==> Count(counter.entries, Key(id), now) >= max) && out != Unavailable
    {
      if broken { return OnError(); }
      var n := counter.Read(Key(id), now);
      out := if n >= max then Deny else Allow;
    }

    method RecordFailure(id: string, now: int, later: int)
      modifies counter
      ensures counter.entries == Incr(old(counter.entries), Key(id), window, now, later).0
    {
      var _ := counter.Increment(Key(id), window, now, later);
    }
  }

  // ---- Runs of Take over a shared counter -----------------------------------------------------

  datatype Event = Event(key: string, now: int, later: int)

  /** Clock readings come in order. */
  predicate InOrder(es: seq<Event>) {
    && (forall i :: 0 <= i < |es| ==> es[i].now <= es[i].later)
    && (forall i, j :: 0 <= i < j < |es| ==> es[i].later <= es[j].now)
  }

  function Run(es: seq<Event>, window: int): Entries {
    if es == [] then map[]
    else
      var last := es[|es| - 1];
      Incr(Run(es[..|es| - 1], window), last.key, window, last.now, last.later).0
  }

  predicate Allowed(es: seq<Event>, window: int, max: int)
    requires es != []
  {
    var last := es[|es| - 1];
    Incr(Run(es[..|es| - 1], window), last.key, window, last.now, last.later).1 <= max
  }

  /** Takes of `key` allowed from position i on. */
  function AllowedSince(es: seq<Event>, window: int, max: int, key: string, i: nat): nat {
    if |es| <= i then 0
    else
      AllowedSince(es[..|es| - 1], window, max, key, i) +
      (if es[|es| - 1].key == key && Allowed(es, window, max) then 1 else 0)
  }

  /** Windows of `key` opened from position i on. */
  function Opened(es: seq<Event>, window: int, key: string, i: nat): nat {
    if |es| <= i then 0
    else
      var last := es[|es| - 1];
      Opened(es[..|es| - 1], window, key, i) +
      (if last.key == key && Over(Run(es[..|es| - 1], window), key, last.now) then 1 else 0)
  }

  function Cap(max: int): nat { if max < 0 then 0 else max }

  function Counted(t: Entries, key: string): nat { if key in t then t[key].n else 0 }

  /** Max for each of k windows that are over. */
  function Spent(k: nat, max: int): nat { if k == 0 then 0 else Spent(k - 1, max) + Cap(max) }

  /** Max for every window that is over, plus no more than the current window has counted and than Max. */
  lemma {:induction false} EachWindowAdmitsMax(es: seq<Event>, window: int, max: int, key: string, i: nat)
    ensures AllowedSince(es, window, max, key, i) <= Spent(Opened(es, window, key, i), max) + Cap(max)
    ensures AllowedSince(es, window, max, key, i) <= Spent(Opened(es, window, key, i), max) +
              Counted(Run(es, window), key)
  {
    if i < |es| {
      EachWindowAdmitsMax(es[..|es| - 1], window, max, key, i);
    }
  }

  /** Within a span no longer than the window, at most one new window opens. */
  lemma {:induction false} OneWindowPerSpan(es: seq<Event>, window: int, key: string, i: nat, a: int)
    requires InOrder(es)
    requires forall j :: i <= j < |es| ==> a <= es[j].now <= a + window
    ensures Opened(es, window, key, i) <= 1
    ensures Opened(es, window, key, i) == 1 ==> key in Run(es, window) && Run(es, window)[key].expires >= a + window
  {
    if i < |es| {
      OneWindowPerSpan(es[..|es| - 1], window, key, i, a);
    }
  }

  /** At most Max per window, and at most twice Max in any span of length Window. */
  lemma TakesAreBounded(es: seq<Event>, window: int, max: int, key: string, i: nat, a: int)
    requires InOrder(es)
    requires forall j :: i <= j < |es| ==> a <= es[j].now <= a + window
    ensures AllowedSince(es, window, max, key, i) <= 2 * Cap(max)
    ensures Opened(es, window, key, i) == 0 ==> AllowedSince(es, window, max, key, i) <= Cap(max)
  {
    EachWindowAdmitsMax(es, window, max, key, i);
    OneWindowPerSpan(es, window, key, i, a);
    assert Spent(0, max) == 0 && Spent(1, max) == Cap(max);
  }

  // ---- What the counter holds, told from the events alone -------------------------------------

  /** The event that opened the current window of `key`: the first, and then each one later than a whole window. */
  function Opener(es: seq<Event>, window: int, key: string): (o: int)
    ensures -1 <= o < |es| && (o >= 0 ==> es[o].key == key)
  {
    if es == [] then -1
    else
      var o, last := Opener(es[..|es| - 1], window, key), es[|es| - 1];
      if last.key == key && (o < 0 || last.now > es[o].later + window) then |es| - 1 else o
  }

  /** Events of `key` from position i on. */
  function EventsSince(es: seq<Event>, key: string, i: nat): nat {
    if |es| <= i then 0
    else EventsSince(es[..|es| - 1], key, i) + (if es[|es| - 1].key == key then 1 else 0)
  }

  /** The entry of a key counts every event since its window opened, and expires a window after that. */
  lemma {:induction false} EntryIsExact(es: seq<Event>, window: int, key: string)
    ensures var o := Opener(es, window, key);
            && (key in Run(es, window) <==> o >= 0)
            && (o >= 0 ==> Run(es, window)[key] == Entry(EventsSince(es, key, o), es[o].later + window))
  {
    if es != [] {
      var init, last := es[..|es| - 1], es[|es| - 1];
      EntryIsExact(init, window, key);
      var o := Opener(es, window, key);
      if o == |es| - 1 { assert EventsSince(init, key, o) == 0; }
    }
  }

  /** Take allows exactly the first Max events of each window of its key. */
  lemma AllowedIffAmongFirst(es: seq<Event>, window: int, max: int)
    requires es != []
    ensures var key := es[|es| - 1].key;
            var o := Opener(es, window, key);
            o >= 0 && (Allowed(es, window, max) <==> EventsSince(es, key, o) <= max)
  {
    EntryIsExact(es, window, es[|es| - 1].key);
    EntryIsExact(es[..|es| - 1], window, es[|es| - 1].key);
  }

  /**
   CheckFailures denies exactly while Max failures or more were recorded in a
   window that is not over (always, if Max is not positive); the time left is what remains of that window.
   */
  lemma DeniedIffMaxRecorded(es: seq<Event>, window: int, max: int, key: string, now: int)
    ensures var o := Opener(es, window, key);
            && (Count(Run(es, window), key, now) >= max <==>
                  max <= 0 || (o >= 0 && now <= es[o].later + window && EventsSince(es, key, o) >= max))
            && TTL(Run(es, window), key, now) ==
                 if o >= 0 && now <= es[o].later + window then es[o].later + window - now else 0
  {
    EntryIsExact(es, window, key);
  }
}
