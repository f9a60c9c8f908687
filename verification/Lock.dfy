/**
 The lease lock (lock/lock.go): a compare-and-swap store of tokens with an
 expiry, many Lockers on it, and ordered acquisition of several keys. Tokens
 are unique: 128 random bits, modelled as the next unused number.
 */
module Lock {
  import opened Options

  datatype Entry = Entry(token: nat, expires: int)

  type Keys = map<string, Entry>

  predicate Live(t: Keys, key: string, now: int) { key in t && now < t[key].expires }

  /** Two clock readings: one decides, a later one dates the new expiry. */
  function SetNX(t: Keys, key: string, token: nat, ttl: int, now: int, later: int): (Keys, bool) {
    if Live(t, key, now) then (t, false) else (t[key := Entry(token, later + ttl)], true)
  }

  function RenewIfMatch(t: Keys, key: string, token: nat, ttl: int, now: int, later: int): (Keys, bool) {
    if key !in t || t[key].token != token || now > t[key].expires then (t, false)
    else (t[key := Entry(token, later + ttl)], true)
  }

  function DelIfMatch(t: Keys, key: string, token: nat): Keys {
    if key in t && t[key].token == token then t - {key} else t
  }

  // ---- Many Lockers on one store -----------------------------------------------------

  /** A successful acquire: its key, the expiry last set for it, and whether it was released. */
  datatype Grant = Grant(key: string, until: int, released: bool)

  datatype System = System(now: int, keys: Keys, grants: map<nat, Grant>, next: nat)

  datatype Step =
    | Tick(d: nat)
    | Acquire(key: string, d: nat)
    | Renew(token: nat, d: nat)
    | Release(token: nat)

  /** A step by any Locker; renews and releases may come late, with a token long superseded. */
  function Do(ttl: int, s: System, step: Step): Option<System> {
    match step
    case Tick(d) => Some(s.(now := s.now + d))
    case Acquire(key, d) =>
      var (keys, got) := SetNX(s.keys, key, s.next, ttl, s.now, s.now + d);
      Some(s.(now := s.now + d, keys := keys, next := s.next + 1,
              grants := if got then s.grants[s.next := Grant(key, s.now + d + ttl, false)] else s.grants))
    case Renew(token, d) =>
      if token !in s.grants then None
      else
        var g := s.grants[token];
        var (keys, ok) := RenewIfMatch(s.keys, g.key, token, ttl, s.now, s.now + d);
        Some(s.(now := s.now + d, keys := keys,
                grants := if ok then s.grants[token := g.(until := s.now + d + ttl)] else s.grants))
    case Release(token) =>
      if token !in s.grants then None
      else
        var g := s.grants[token];
        Some(s.(keys := DelIfMatch(s.keys, g.key, token), grants := s.grants[token := g.(released := true)]))
  }

  const START := System(0, map[], map[], 0)

  function Run(ttl: int, steps: seq<Step>): Option<System> {
    if steps == [] then Some(START)
    else
      var before := Run(ttl, steps[..|steps| - 1]);
      if before.None? then None else Do(ttl, before.value, steps[|steps| - 1])
  }

  predicate Holds(s: System, token: nat) {
    token in s.grants && !s.grants[token].released && s.now < s.grants[token].until
  }

  /** The last acquire of its key that succeeded. */
  ghost predicate Newest(s: System, token: nat)
    requires token in s.grants
  {
    forall t :: t in s.grants && s.grants[t].key == s.grants[token].key ==> t <= token
  }

  /** The entry of a key is the newest grant of that key, which was not released. */
  ghost predicate Backed(s: System, k: string)
    requires k in s.keys
  {
    var token := s.keys[k].token;
    && token in s.grants && s.grants[token] == Grant(k, s.keys[k].expires, false) && Newest(s, token)
  }

  /** An acquire that holds its key, or was the last to get it and was not released, has its entry in the store. */
  ghost predicate Stored(s: System, t: nat)
    requires t in s.grants
  {
    Holds(s, t) || (Newest(s, t) && !s.grants[t].released) ==>
      Lookup(s.keys, s.grants[t].key) == Some(Entry(t, s.grants[t].until))
  }

  ghost predicate Inv(s: System) {
    && (forall k :: k in s.keys ==> Backed(s, k))
    && (forall t :: t in s.grants ==> t < s.next && Stored(s, t))
  }

  /** Grants stay, under the same key. */
  lemma GrantsStay(ttl: int, s: System, step: Step, t: nat)
    requires Do(ttl, s, step).Some? && t in s.grants && t < s.next
    ensures var s' := Do(ttl, s, step).value;
            t in s'.grants && s'.grants[t].key == s.grants[t].key && s.now <= s'.now && s.next <= s'.next
  {}

  lemma NewestBefore(ttl: int, s: System, step: Step, t: nat)
    requires Inv(s) && Do(ttl, s, step).Some? && t in s.grants && t in Do(ttl, s, step).value.grants
    requires Newest(Do(ttl, s, step).value, t)
    ensures Newest(s, t)
  {
    forall u | u in s.grants && s.grants[u].key == s.grants[t].key ensures u <= t {
      GrantsStay(ttl, s, step, u);
      GrantsStay(ttl, s, step, t);
    }
  }

  lemma BackedKept(ttl: int, s: System, step: Step, k: string)
    requires Inv(s) && Do(ttl, s, step).Some? && k in Do(ttl, s, step).value.keys
    ensures Backed(Do(ttl, s, step).value, k)
  {
    if k in s.keys { assert Backed(s, k); }
  }

  lemma StoredKept(ttl: int, s: System, step: Step, t: nat)
    requires Inv(s) && Do(ttl, s, step).Some? && t in s.grants
    ensures t in Do(ttl, s, step).value.grants && Stored(Do(ttl, s, step).value, t)
  {
    assert Stored(s, t);
    GrantsStay(ttl, s, step, t);
    if Newest(Do(ttl, s, step).value, t) { NewestBefore(ttl, s, step, t); }
    if step.Acquire? { StoredOnAcquire(ttl, s, step, t); } else { StoredOnOwn(ttl, s, step, t); }
  }

  lemma StoredOnAcquire(ttl: int, s: System, step: Step, t: nat)
    requires Inv(s) && step.Acquire? && t in s.grants && t < s.next && Stored(s, t)
    requires var s' := Do(ttl, s, step).value; t in s'.grants && (Newest(s', t) ==> Newest(s, t))
    ensures Stored(Do(ttl, s, step).value, t)
  {
    var s' := Do(ttl, s, step).value;
    if Holds(s', t) { assert Holds(s, t); }
    if s'.grants != s.grants && step.key == s.grants[t].key { assert s.next in s'.grants && !Newest(s', t); }
  }

  lemma StoredOnOwn(ttl: int, s: System, step: Step, t: nat)
    requires Inv(s) && !step.Acquire? && Do(ttl, s, step).Some? && t in s.grants && Stored(s, t)
    requires var s' := Do(ttl, s, step).value; t in s'.grants && (Newest(s', t) ==> Newest(s, t))
    ensures Stored(Do(ttl, s, step).value, t)
  {
    if Holds(Do(ttl, s, step).value, t) && !(step.Renew? && step.token == t) { assert Holds(s, t); }
    if !step.Tick? && s.grants[step.token].key in s.keys { assert Backed(s, s.grants[step.token].key); }
  }

  lemma StepKeepsInv(ttl: int, s: System, step: Step)
    requires Inv(s) && Do(ttl, s, step).Some?
    ensures Inv(Do(ttl, s, step).value)
  {
    var s' := Do(ttl, s, step).value;
    forall k | k in s'.keys ensures Backed(s', k) { BackedKept(ttl, s, step, k); }
    forall t | t in s'.grants ensures t < s'.next && Stored(s', t) {
      if t in s.grants {
        StoredKept(ttl, s, step, t);
        GrantsStay(ttl, s, step, t);
      }
    }
  }

  lemma {:induction false} RunKeepsInv(ttl: int, steps: seq<Step>)
    requires Run(ttl, steps).Some?
    ensures Inv(Run(ttl, steps).value)
  {
    if steps != [] {
      RunKeepsInv(ttl, steps[..|steps| - 1]);
      StepKeepsInv(ttl, Run(ttl, steps[..|steps| - 1]).value, steps[|steps| - 1]);
    }
  }

  /** Two holders of one key are the same acquire. */
  lemma MutualExclusion(ttl: int, steps: seq<Step>, a: nat, b: nat)
    requires Run(ttl, steps).Some?
    ensures var s := Run(ttl, steps).value;
            Holds(s, a) && Holds(s, b) && s.grants[a].key == s.grants[b].key ==> a == b
  {
    RunKeepsInv(ttl, steps);
  }

  /**
   While an acquire holds its key (not released, last renewed expiry ahead) no
   step of anyone else takes the key, renews over it or frees it: only its own
   release ends it, and only its own renew moves its expiry.
   */
  lemma HoldersAreUndisturbed(ttl: int, steps: seq<Step>, step: Step, token: nat)
    requires Run(ttl, steps).Some? && Do(ttl, Run(ttl, steps).value, step).Some?
    requires Holds(Run(ttl, steps).value, token)
    requires step != Release(token) && !(step.Renew? && step.token == token)
    ensures var s, s' := Run(ttl, steps).value, Do(ttl, Run(ttl, steps).value, step).value;
            && s'.grants[token] == s.grants[token]
            && Lookup(s'.keys, s.grants[token].key) == Some(Entry(token, s.grants[token].until))
            && (step.Acquire? && step.key == s.grants[token].key ==> s'.grants == s.grants && s'.keys == s.keys)
  {
    RunKeepsInv(ttl, steps);
  }

  /** A holder's own renew always succeeds and its own release always frees the key. */
  lemma HoldersMayRenewAndRelease(ttl: int, steps: seq<Step>, token: nat, d: nat)
    requires Run(ttl, steps).Some? && Holds(Run(ttl, steps).value, token)
    ensures var s := Run(ttl, steps).value;
            var key := s.grants[token].key;
            && RenewIfMatch(s.keys, key, token, ttl, s.now, s.now + d) ==
                 (s.keys[key := Entry(token, s.now + d + ttl)], true)
            && Do(ttl, s, Release(token)).Some? && key !in Do(ttl, s, Release(token)).value.keys
  {
    RunKeepsInv(ttl, steps);
  }

  /**
   Acquire gets a key exactly when no acquire holds it, and then holds it for
   the whole of the TTL; a refusal changes nothing.
   */
  lemma AcquiredIffFree(ttl: int, steps: seq<Step>, key: string, d: nat)
    requires Run(ttl, steps).Some?
    ensures var s := Run(ttl, steps).value;
            var s' := Do(ttl, s, Acquire(key, d)).value;
            var taken := exists t :: Holds(s, t) && s.grants[t].key == key;
            && (taken ==> s'.grants == s.grants && s'.keys == s.keys)
            && (!taken ==> s'.grants == s.grants[s.next := Grant(key, s.now + d + ttl, false)] &&
                             s'.keys == s.keys[key := Entry(s.next, s.now + d + ttl)])
  {
    RunKeepsInv(ttl, steps);
    var s := Run(ttl, steps).value;
    if Live(s.keys, key, s.now) {
      assert Backed(s, key);
      assert Holds(s, s.keys[key].token);
    }
  }

  /**
   Renew succeeds exactly for the last acquire of the key, if it was not
   released and its expiry has not passed (the very moment of expiry included);
   Release frees the key exactly for that acquire.
   */
  lemma RenewedIffNewest(ttl: int, steps: seq<Step>, token: nat, d: nat)
    requires Run(ttl, steps).Some? && token in Run(ttl, steps).value.grants
    ensures var s := Run(ttl, steps).value;
            var g := s.grants[token];
            var own := !g.released && Newest(s, token);
            && Do(ttl, s, Renew(token, d)) ==
                 Some(if own && s.now <= g.until
                      then s.(now := s.now + d, keys := s.keys[g.key := Entry(token, s.now + d + ttl)],
                              grants := s.grants[token := Grant(g.key, s.now + d + ttl, false)])
                      else s.(now := s.now + d))
            && Do(ttl, s, Release(token)).value.keys == if own then s.keys - {g.key} else s.keys
  {
    RunKeepsInv(ttl, steps);
    var s := Run(ttl, steps).value;
    assert Stored(s, token);
    if s.grants[token].key in s.keys { assert Backed(s, s.grants[token].key); }
  }

  // ---- The Locker ------------------------------------------------------------------------

  /** Entries carrying a token of `mine` that are still live are exactly as they were; none appeared. */
  predicate Spared(keys: Keys, now: int, keys': Keys, now': int, mine: set<nat>) {
    && now <= now'
    && (forall k :: k in keys' && keys'[k].token in mine ==> k in keys && keys'[k] == keys[k])
    && (forall k :: k in keys && keys[k].token in mine && now' < keys[k].expires ==> k in keys' && keys'[k] == keys[k])
  }

  /** What an acquire hands back: the lock a release func would free. */
  datatype Held = Held(key: string, token: nat, until: int)

  function Tokens(hs: seq<Held>): set<nat> { set h | h in hs :: h.token }

  function Names(hs: seq<Held>): set<string> { set h | h in hs :: h.key }

  /** A set the store refused: for which key, over what, when. */
  datatype Refusal = Refusal(key: string, seen: Keys, at: int)

  /** The n-th call to the store fails. */
  predicate Fails(broken: nat -> bool, n: nat) { broken(n) }

  class MemStore {
    /** Whether the n-th call to the store fails. A failed call changes nothing. */
    const broken: nat -> bool
    var calls: nat
    var now: int
    var keys: Keys
    /** The next unused token, shared by every Locker. */
    var next: nat
    /** Every lock this process was granted, oldest first. */
    ghost var granted: seq<Held>
    /** And every one it was refused because a live entry stood. */
    ghost var refused: seq<Refusal>

    constructor (broken: nat -> bool)
      ensures Valid() && keys == map[] && next == 0 && calls == 0 && granted == [] && refused == []
      ensures this.broken == broken
    {
      this.broken := broken;
      now, keys, next, calls, granted, refused := 0, map[], 0, 0, [], [];
    }

    /** Every stored token was issued. */
    ghost predicate Valid() reads this { forall k :: k in keys ==> keys[k].token < next }

    /** Time passes and other Lockers act, with tokens that are not `mine`. */
    method Others(mine: set<nat>)
      requires Valid() && forall t :: t in mine ==> t < next
      modifies this`now, this`keys, this`next
      ensures Valid() && old(next) <= next && Spared(old(keys), old(now), keys, now, mine)
    {
      var acts: seq<(string, int, int, bool, int)> := *;
      for i := 0 to |acts|
        invariant Valid() && old(next) <= next && Spared(old(keys), old(now), keys, now, mine)
      {
        var (key, token, ttl, del, d) := acts[i];
        if d >= 0 && token >= 0 {
          now := now + d;
          if !del {
            var (keys', got) := SetNX(keys, key, next, ttl, now, now);
            keys, next := keys', next + 1;
          } else if token !in mine {
            var (keys', ok) := RenewIfMatch(keys, key, token, ttl, now, now);
            keys := if ttl > 0 then keys' else DelIfMatch(keys, key, token);
          }
        }
      }
    }

    method NewToken() returns (token: nat)
      modifies this`next
      ensures token == old(next) && next == old(next) + 1
    {
      token, next := next, next + 1;
    }

    method TrySet(key: string, token: nat, ttl: int) returns (got: bool, err: bool, until: int)
      modifies this`now, this`keys, this`calls, this`granted, this`refused
      ensures calls == old(calls) + 1 && err == Fails(broken, old(calls))
      ensures old(now) <= now && until == now + ttl
      ensures (keys, got) == if err then (old(keys), false) else SetNX(old(keys), key, token, ttl, old(now), now)
      ensures granted == old(granted) + (if got then [Held(key, token, until)] else [])
      ensures refused == old(refused) + (if got || err then [] else [Refusal(key, old(keys), old(now))])
    {
      err, calls := Fails(broken, calls), calls + 1;
      got := !err && !Live(keys, key, now);
      if !got && !err { refused := refused + [Refusal(key, keys, now)]; }
      var d: int := *;
      if d >= 0 { now := now + d; }
      until := now + ttl;
      if got {
        keys, granted := keys[key := Entry(token, until)], granted + [Held(key, token, until)];
      }
    }

    method TryRenew(key: string, token: nat, ttl: int) returns (ok: bool)
      modifies this`now, this`keys, this`calls
      ensures calls == old(calls) + 1 && old(now) <= now
      ensures (keys, ok) ==
                if Fails(broken, old(calls)) then (old(keys), false)
                  else RenewIfMatch(old(keys), key, token, ttl, old(now), now)
    {
      ok := !Fails(broken, calls) && !(key !in keys || keys[key].token != token || now > keys[key].expires);
      calls := calls + 1;
      var d: int := *;
      if d >= 0 { now := now + d; }
      if ok { keys := keys[key := Entry(token, now + ttl)]; }
    }

    method Del(key: string, token: nat)
      modifies this`keys, this`calls
      ensures calls == old(calls) + 1
      ensures keys == if Fails(broken, old(calls)) then old(keys) else DelIfMatch(old(keys), key, token)
    {
      if !Fails(broken, calls) && key in keys && keys[key].token == token { keys := keys - {key}; }
      calls := calls + 1;
    }
  }

  /** Byte-wise order of keys. */
  predicate AtMost(a: string, b: string) {
    a == [] || (b != [] && (a[0] < b[0] || (a[0] == b[0] && AtMost(a[1..], b[1..]))))
  }

  lemma {:induction a, b} AtMostTotal(a: string, b: string)
    ensures AtMost(a, b) || AtMost(b, a)
  {}

  lemma {:induction false} AtMostTrans(a: string, b: string, c: string)
    requires AtMost(a, b) && AtMost(b, c)
    ensures AtMost(a, c)
  {
    if a != [] && a[0] == b[0] && b[0] == c[0] { AtMostTrans(a[1..], b[1..], c[1..]); }
  }

  predicate Sorted(s: seq<string>) { forall i, j :: 0 <= i < j < |s| ==> AtMost(s[i], s[j]) }

  method SortKeys(keys: seq<string>) returns (ids: seq<string>)
    ensures Sorted(ids) && multiset(ids) == multiset(keys)
  {
    ids := [];
    for i := 0 to |keys|
      invariant Sorted(ids) && multiset(ids) == multiset(keys[..i])
    {
      assert keys[..i + 1] == keys[..i] + [keys[i]];
      ids := Insert(ids, keys[i]);
    }
    assert keys[..|keys|] == keys;
  }

  method Insert(ids: seq<string>, k: string) returns (out: seq<string>)
    requires Sorted(ids)
    ensures Sorted(out) && multiset(out) == multiset(ids + [k])
  {
    var n := 0;
    while n < |ids| && AtMost(ids[n], k)
      invariant 0 <= n <= |ids| && forall i :: 0 <= i < n ==> AtMost(ids[i], k)
    {
      n := n + 1;
    }
    out := ids[..n] + [k] + ids[n..];
    InsertKeepsSorted(ids, k, n);
    assert ids[..n] + ids[n..] == ids;
  }

  lemma InsertKeepsSorted(ids: seq<string>, k: string, n: nat)
    requires Sorted(ids) && n <= |ids|
    requires forall i :: 0 <= i < n ==> AtMost(ids[i], k)
    requires n < |ids| ==> !AtMost(ids[n], k)
    ensures Sorted(ids[..n] + [k] + ids[n..])
  {
    forall i | n <= i < |ids| ensures AtMost(k, ids[i]) {
      AtMostTotal(k, ids[n]);
      if n < i { AtMostTrans(k, ids[n], ids[i]); }
    }
  }

  /** Every entry with one of these tokens is where that lock was taken. */
  ghost predicate Placed(keys: Keys, held: seq<Held>, n: nat) {
    forall k :: k in keys && keys[k].token in Tokens(held) ==>
      exists i :: 0 <= i < n && i < |held| && held[i].key == k && held[i].token == keys[k].token
  }

  /** Locks taken so far, in order, are in place unless expired; one key twice means the first had expired. */
  ghost predicate Kept(keys: Keys, now: int, held: seq<Held>, ids: seq<string>) {
    && |held| <= |ids|
    && (forall i :: 0 <= i < |held| ==> held[i].key == ids[i])
    && (forall i :: 0 <= i < |held| ==>
          now >= held[i].until || Lookup(keys, held[i].key) == Some(Entry(held[i].token, held[i].until)))
    && (forall i, j :: 0 <= i < j < |held| && held[i].key == held[j].key ==> now >= held[i].until)
    && Placed(keys, held, |held|)
  }

  lemma KeptBySparing(keys: Keys, now: int, keys': Keys, now': int, held: seq<Held>, ids: seq<string>)
    requires Kept(keys, now, held, ids) && Spared(keys, now, keys', now', Tokens(held))
    ensures Kept(keys', now', held, ids)
  {}

  /** A fresh lock joins the others: it is only granted where no live one stands. */
  lemma KeptByAcquiring(keys: Keys, now: int, later: int, held: seq<Held>, ids: seq<string>, h: Held)
    requires Kept(keys, now, held, ids) && |held| < |ids| && h.key == ids[|held|]
    requires !Live(keys, h.key, now) && now <= later
    requires h.token !in Tokens(held) && forall k :: k in keys ==> keys[k].token != h.token
    ensures Kept(keys[h.key := Entry(h.token, h.until)], later, held + [h], ids)
  {}

  class Locker {
    const store: MemStore
    const ttl: int
    var tokens: map<string, nat>

    constructor (store: MemStore, ttl: int)
      ensures this.store == store && this.ttl == ttl && tokens == map[]
    {
      this.store, this.ttl, tokens := store, ttl, map[];
    }

    method Acquire(key: string) returns (h: Option<Held>, err: bool)
      requires store.Valid()
      modifies store, this
      ensures store.Valid()
      ensures store.next == old(store.next) + 1 && old(store.now) <= store.now
      ensures store.calls == old(store.calls) + 1 && err == Fails(store.broken, old(store.calls))
      ensures h.None? <==> err || Live(old(store.keys), key, old(store.now))
      ensures h.None? ==> store.keys == old(store.keys) && tokens == old(tokens) && store.granted == old(store.granted)
      ensures store.refused == old(store.refused) +
                (if h.Some? || err then [] else [Refusal(key, old(store.keys), old(store.now))])
      ensures h.Some? ==> h.value == Held(key, old(store.next), store.now + ttl)
      ensures h.Some? ==> store.keys == old(store.keys)[key := Entry(h.value.token, h.value.until)]
      ensures h.Some? ==> tokens == old(tokens)[key := h.value.token] && store.granted == old(store.granted) + [h.value]
    {
      var token := store.NewToken();
      var got, failed, until := store.TrySet(key, token, ttl);
      if !got { return None, failed; }
      tokens := tokens[key := token];
      return Some(Held(key, token, until)), false;
    }

    /** The release func: a failed delete is ignored, and the token is forgotten either way. */
    method Release(h: Held)
      modifies store`keys, store`calls, this
      ensures store.calls == old(store.calls) + 1
      ensures store.keys == if Fails(store.broken, old(store.calls)) then old(store.keys)
                else DelIfMatch(old(store.keys), h.key, h.token)
      ensures tokens == old(tokens) - {h.key}
    {
      store.Del(h.key, h.token);
      tokens := tokens - {h.key};
    }

    method Renew(key: string) returns (ok: bool)
      modifies store`now, store`keys, store`calls
      ensures key !in tokens ==> !ok && store.keys == old(store.keys) && store.now == old(store.now)
      ensures key in tokens ==>
                (store.keys, ok) == if Fails(store.broken, old(store.calls)) then (old(store.keys), false)
                                    else RenewIfMatch(old(store.keys), key, tokens[key], ttl, old(store.now), store.now)
    {
      if key !in tokens { return false; }
      ok := store.TryRenew(key, tokens[key], ttl);
    }

    /**
     All the keys in sorted order, or none. `held` is exactly what the store
     granted. It stops at the first key it cannot get, because the store failed
     (err) or because the key is live in `seen`, the store at that moment; then
     each lock taken is gone again, unless the store failed its delete.
     */
    method AcquireOrdered(keys: seq<string>)
      returns (ok: bool, err: bool, held: seq<Held>, ids: seq<string>, ghost seen: Keys, ghost at: int)
      requires store.Valid()
      modifies store, this
      ensures store.Valid()
      ensures Sorted(ids) && multiset(ids) == multiset(keys)
      ensures store.granted == old(store.granted) + held && Kept(seen, at, held, ids)
      ensures ok ==> !err && |held| == |ids| && Kept(store.keys, store.now, held, ids)
      ensures ok ==> tokens == Remembering(old(tokens), held)
      ensures !ok ==> |held| < |ids| && old(store.now) <= at <= store.now
      ensures !ok && !err ==> Live(seen, ids[|held|], at)
      ensures store.refused == old(store.refused) + (if ok || err then [] else [Refusal(ids[|held|], seen, at)])
      ensures store.calls == old(store.calls) + (if ok then |ids| else 2 * |held| + 1)
      ensures err <==> !ok && Fails(store.broken, old(store.calls) + |held|)
      ensures !ok ==> tokens == old(tokens) - Names(held) && GivenBack(store.keys, held, store.calls, store.broken)
      ensures Issued(held, old(store.next), store.next)
    {
      ids := SortKeys(keys);
      ok, err, held, seen, at := TakeAll(ids);
      if !ok {
        RememberingForgets(old(tokens), held);
        ReleaseAll(held);
      }
    }

    /** One key after the other, up to the first that cannot be had. */
    method TakeAll(ids: seq<string>) returns (ok: bool, err: bool, held: seq<Held>, ghost seen: Keys, ghost at: int)
      requires store.Valid()
      modifies store, this
      ensures store.Valid() && Placed(store.keys, held, |held|)
      ensures store.granted == old(store.granted) + held && Kept(seen, at, held, ids)
      ensures ok ==> |held| == |ids| && seen == store.keys && at == store.now
      ensures !ok ==> |held| < |ids| && old(store.now) <= at <= store.now
      ensures !ok && !err ==> Live(seen, ids[|held|], at)
      ensures store.refused == old(store.refused) + (if ok || err then [] else [Refusal(ids[|held|], seen, at)])
      ensures store.calls == old(store.calls) + |held| + (if ok then 0 else 1)
      ensures err <==> !ok && Fails(store.broken, old(store.calls) + |held|)
      ensures tokens == Remembering(old(tokens), held) && Issued(held, old(store.next), store.next)
    {
      ok, err, held := true, false, [];
      seen, at := store.keys, store.now;
      for n := 0 to |ids|
        invariant store.Valid() && ok && !err && |held| == n && old(store.next) <= store.next
        invariant store.calls == old(store.calls) + n && old(store.now) <= store.now &&
                  store.refused == old(store.refused)
        invariant store.granted == old(store.granted) + held && tokens == Remembering(old(tokens), held)
        invariant Kept(store.keys, store.now, held, ids) && seen == store.keys && at == store.now
        invariant Issued(held, old(store.next), store.next)
      {
        var h;
        h, err, seen, at := TakeNext(held, ids);
        if h.None? {
          ok := false;
          return;
        }
        held := held + [h.value];
        seen, at := store.keys, store.now;
      }
    }

    /** The next key in order, others acting first. */
    method TakeNext(held: seq<Held>, ids: seq<string>)
      returns (h: Option<Held>, err: bool, ghost seen: Keys, ghost at: int)
      requires store.Valid() && |held| < |ids| && Kept(store.keys, store.now, held, ids) && Issued(held, 0, store.next)
      modifies store, this
      ensures store.Valid() && old(store.next) <= store.next
      ensures Kept(seen, at, held, ids) && old(store.now) <= at <= store.now
      ensures store.calls == old(store.calls) + 1 && err == Fails(store.broken, old(store.calls))
      ensures h.None? <==> err || Live(seen, ids[|held|], at)
      ensures store.refused == old(store.refused) + (if h.Some? || err then [] else [Refusal(ids[|held|], seen, at)])
      ensures h.None? ==>
                Placed(store.keys, held, |held|) && tokens == old(tokens) && store.granted == old(store.granted)
      ensures h.Some? ==>
                Kept(store.keys, store.now, held + [h.value], ids) && old(store.next) <= h.value.token < store.next
      ensures h.Some? ==>
                tokens == old(tokens)[h.value.key := h.value.token] && store.granted == old(store.granted) + [h.value]
    {
      ghost var keys0, now0 := store.keys, store.now;
      store.Others(Tokens(held));
      KeptBySparing(keys0, now0, store.keys, store.now, held, ids);
      seen, at := store.keys, store.now;
      h, err := Acquire(ids[|held|]);
      if h.Some? { KeptByAcquiring(seen, at, store.now, held, ids, h.value); }
    }

    /** Newest first, as releaseAll does. */
    method ReleaseAll(held: seq<Held>)
      requires store.Valid() && Placed(store.keys, held, |held|) && Issued(held, 0, store.next)
      modifies store, this
      ensures store.Valid() && store.next >= old(store.next) && store.granted == old(store.granted) &&
                old(store.now) <= store.now
      ensures store.refused == old(store.refused)
      ensures store.calls == old(store.calls) + |held|
      ensures tokens == old(tokens) - Names(held)
      ensures GivenBack(store.keys, held, store.calls, store.broken)
    {
      var i := |held|;
      ghost var total := store.calls + i;
      PlacedIsLeft(store.keys, held, total, store.broken);
      while i > 0
        invariant store.Valid() && 0 <= i <= |held| && old(store.next) <= store.next && old(store.now) <= store.now
        invariant store.granted == old(store.granted) && store.refused == old(store.refused) && store.calls + i == total
        invariant tokens == old(tokens) - Names(held[i..])
        invariant Left(store.keys, held, i, total, store.broken)
      {
        i := i - 1;
        ForgetOneMore(old(tokens), held, i);
        ReleaseOne(held, i, total);
      }
      assert held[0..] == held;
    }

    method ReleaseOne(held: seq<Held>, i: nat, ghost total: nat)
      requires store.Valid() && i < |held| <= total && total == store.calls + i + 1 && Issued(held, 0, store.next)
      requires Left(store.keys, held, i + 1, total, store.broken)
      modifies store, this
      ensures store.Valid() && store.next >= old(store.next) && store.granted == old(store.granted) &&
                old(store.now) <= store.now
      ensures store.refused == old(store.refused)
      ensures store.calls == old(store.calls) + 1 && tokens == old(tokens) - {held[i].key}
      ensures Left(store.keys, held, i, total, store.broken)
    {
      ghost var keys0, now0 := store.keys, store.now;
      store.Others(Tokens(held));
      LeftBySparing(keys0, now0, store.keys, store.now, held, i + 1, total, store.broken);
      keys0 := store.keys;
      Release(held[i]);
      LeftByRelease(keys0, store.keys, held, i, total, store.broken);
    }
  }

  predicate Issued(held: seq<Held>, from: nat, to: nat) {
    forall i :: 0 <= i < |held| ==> from <= held[i].token < to
  }

  /**
   An entry with one of these tokens is one of the first n locks, or one whose
   delete (calls - 1 - i for the i-th) failed.
   */
  ghost predicate Left(keys: Keys, held: seq<Held>, n: nat, calls: nat, broken: nat -> bool)
    requires |held| <= calls
  {
    forall k :: k in keys && keys[k].token in Tokens(held) ==>
      exists i :: 0 <= i < |held| && held[i].key == k && held[i].token == keys[k].token &&
        (i < n || Fails(broken, calls - 1 - i))
  }

  lemma LeftBySparing(
    keys: Keys, now: int, keys': Keys, now': int, held: seq<Held>, n: nat, calls: nat, broken: nat -> bool)
    requires |held| <= calls && Left(keys, held, n, calls, broken) && Spared(keys, now, keys', now', Tokens(held))
    ensures Left(keys', held, n, calls, broken)
  {}

  lemma LeftByRelease(keys: Keys, keys': Keys, held: seq<Held>, i: nat, calls: nat, broken: nat -> bool)
    requires i < |held| <= calls && Left(keys, held, i + 1, calls, broken)
    requires keys' == if Fails(broken, calls - 1 - i) then keys else DelIfMatch(keys, held[i].key, held[i].token)
    ensures Left(keys', held, i, calls, broken)
  {
    forall k | k in keys' && keys'[k].token in Tokens(held)
      ensures exists j :: 0 <= j < |held| && held[j].key == k && held[j].token == keys'[k].token &&
                (j < i || Fails(broken, calls - 1 - j))
    {
      var j :| 0 <= j < |held| && held[j].key == k && held[j].token == keys[k].token &&
        (j < i + 1 || Fails(broken, calls - 1 - j));
    }
  }

  lemma PlacedIsLeft(keys: Keys, held: seq<Held>, calls: nat, broken: nat -> bool)
    requires |held| <= calls && Placed(keys, held, |held|)
    ensures Left(keys, held, |held|, calls, broken)
  {}

  lemma ForgetOneMore(tokens: map<string, nat>, held: seq<Held>, i: nat)
    requires i < |held|
    ensures (tokens - Names(held[i + 1..])) - {held[i].key} == tokens - Names(held[i..])
  {
    assert held[i..] == [held[i]] + held[i + 1..];
    assert Names(held[i..]) == Names(held[i + 1..]) + {held[i].key};
  }

  /** No lock of `held` is left in the store, except where the store failed the delete. */
  ghost predicate GivenBack(keys: Keys, held: seq<Held>, calls: nat, broken: nat -> bool) {
    |held| <= calls && Left(keys, held, 0, calls, broken)
  }

  /** The local tokens once these locks were taken, in order. */
  function Remembering(tokens: map<string, nat>, held: seq<Held>): map<string, nat> {
    if held == [] then tokens
    else Remembering(tokens, held[..|held| - 1])[held[|held| - 1].key := held[|held| - 1].token]
  }

  lemma {:induction false} RememberingForgets(tokens: map<string, nat>, held: seq<Held>)
    ensures Remembering(tokens, held) - Names(held) == tokens - Names(held)
  {
    if held != [] {
      var init := held[..|held| - 1];
      RememberingForgets(tokens, init);
      assert held == init + [held[|held| - 1]];
      assert Names(held) == Names(init) + {held[|held| - 1].key};
      assert Remembering(tokens, held) - Names(held) ==
        (Remembering(tokens, init) - Names(init)) - {held[|held| - 1].key};
      assert tokens - Names(held) == (tokens - Names(init)) - {held[|held| - 1].key};
    }
  }

  /**
   A key named twice is refused exactly while an earlier lease of this very call
   is still running, if nobody else holds it.
   */
  lemma RepeatIffLapsed(keys: Keys, now: int, held: seq<Held>, ids: seq<string>)
    requires Kept(keys, now, held, ids) && |held| < |ids|
    requires var k := ids[|held|];
             Live(keys, k, now) ==>
               exists i :: 0 <= i < |held| && held[i].key == k && keys[k] == Entry(held[i].token, held[i].until)
    ensures Live(keys, ids[|held|], now) <==>
              exists i :: 0 <= i < |held| && ids[i] == ids[|held|] && now < held[i].until
  {}

  /**
   A release that comes late, after its lease lapsed and the same Locker took
   the key again, does not free the newer lock. But it makes the Locker forget
   the newer token: exactly then, Renew reports the lease lost while it is held.
   */
  method ReleaseThenRenew(l: Locker, released: Held, current: Held) returns (renewed: bool)
    requires released.token != current.token
    requires current.key in l.tokens && l.tokens[current.key] == current.token
    requires Lookup(l.store.keys, current.key) == Some(Entry(current.token, current.until)) &&
              l.store.now < current.until
    modifies l, l.store
    ensures current.key in l.store.keys && l.store.keys[current.key].token == current.token
    ensures renewed <==> released.key != current.key && !l.store.broken(old(l.store.calls) + 1)
    ensures released.key == current.key ==> Live(l.store.keys, current.key, l.store.now)
  {
    l.Release(released);
    renewed := l.Renew(current.key);
  }

  /**
   Such a release can happen: the lease lapses, the same Locker takes the key
   again, and then the first release comes in.
   */
  method LateReleaseForgets(key: string, ttl: nat) returns (renewed: bool, held: bool)
    ensures !renewed && (ttl > 0 ==> held)
  {
    var store := new MemStore(n => false);
    var l := new Locker(store, ttl);
    var first, _ := l.Acquire(key);
    store.now := first.value.until;
    var second, _ := l.Acquire(key);
    l.Release(first.value);
    renewed := l.Renew(key);
    held := Live(store.keys, key, store.now);
  }
}
