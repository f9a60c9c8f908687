/**
 Idempotency claims: the in-memory store, the DynamoDB store, and the proof
 that the second behaves as the first with every duration rounded up to a whole
 second (idempotency/store.go, idempotency/dynamo.go). Times are nanoseconds.
 */
module Idempotency {
  import opened Options
  import opened Clock

  datatype Record = Record(hash: string, status: int, contentType: string, body: string)

  datatype Claimed = Held | Replay(rec: Record) | Conflict | InProgress

  // ---- Entries: what both stores agree on -------------------------------------------

  datatype Entry = Entry(rec: Record, done: bool, expires: int)

  type Table<!K> = map<K, Entry>

  predicate Live<K>(t: Table<K>, k: K, now: int) { k in t && now < t[k].expires }

  /** Claim with an explicit expiry for the new claim. */
  function ClaimUntil<K>(t: Table<K>, k: K, hash: string, expires: int, now: int): (Table<K>, Claimed) {
    if Live(t, k, now) then
      (t, if t[k].rec.hash != hash then Conflict else if !t[k].done then InProgress else Replay(t[k].rec))
    else
      (t[k := Entry(Record(hash, 0, "", ""), false, expires)], Held)
  }

  function CompleteUntil<K>(t: Table<K>, k: K, rec: Record, expires: int): Table<K> {
    t[k := Entry(rec, true, expires)]
  }

  function Released<K>(t: Table<K>, k: K): Table<K> {
    if k in t && !t[k].done then t - {k} else t
  }

  // ---- The in-memory store ---------------------------------------------------------------

  const NUL: char := 0 as char

  function MemKey(scope: string, key: string): string { scope + [NUL] + key }

  const MAX_KEY_LENGTH := 128

  predicate Visible(c: char) { 0x21 <= c as int <= 0x7e }

  predicate WellFormedKey(k: string) { 1 <= |k| <= MAX_KEY_LENGTH && forall c :: c in k ==> Visible(c) }

  method ValidKey(k: string) returns (ok: bool)
    ensures ok <==> WellFormedKey(k)
  {
    if |k| == 0 || |k| > MAX_KEY_LENGTH { return false; }
    for i := 0 to |k|
      invariant forall c :: c in k[..i] ==> Visible(c)
    {
      if !Visible(k[i]) { return false; }
      assert k[..i + 1] == k[..i] + [k[i]];
    }
    assert k[..|k|] == k;
    return true;
  }

  /** Splitting at the last NUL recovers both halves, whatever the scope contains. */
  lemma {:induction false} MemKeyInjective(s1: string, k1: string, s2: string, k2: string)
    requires NUL !in k1 && NUL !in k2
    requires MemKey(s1, k1) == MemKey(s2, k2)
    ensures s1 == s2 && k1 == k2
  {
    var m := MemKey(s1, k1);
    assert m[|s1|] == NUL && m[|s2|] == NUL;
    assert |s1| == |s2|;
    assert m[..|s1|] == s1 && m[..|s1|] == s2 && m[|s1| + 1..] == k1 && m[|s1| + 1..] == k2;
  }

  class MemoryStore {
    var m: Table<string>

    constructor () ensures m == map[] { m := map[]; }

    method Claim(scope: string, key: string, hash: string, lease: int, now: int) returns (r: Claimed)
      modifies this
      ensures (m, r) == ClaimUntil(old(m), MemKey(scope, key), hash, now + lease, now)
    {
      var k := MemKey(scope, key);
      if k in m && now < m[k].expires {
        if m[k].rec.hash != hash { return Conflict; }
        if !m[k].done { return InProgress; }
        return Replay(m[k].rec);
      }
      m := m[k := Entry(Record(hash, 0, "", ""), false, now + lease)];
      r := Held;
    }

    method Complete(scope: string, key: string, rec: Record, ttl: int, now: int)
      modifies this
      ensures m == CompleteUntil(old(m), MemKey(scope, key), rec, now + ttl)
    {
      m := m[MemKey(scope, key) := Entry(rec, true, now + ttl)];
    }

    method Release(scope: string, key: string)
      modifies this
      ensures m == Released(old(m), MemKey(scope, key))
      ensures var k := MemKey(scope, key);
              m == if k in old(m) && !old(m)[k].done then old(m) - {k} else old(m)
    {
      var k := MemKey(scope, key);
      if k in m && !m[k].done { m := m - {k}; }
    }
  }

  // ---- The DynamoDB store -----------------------------------------------------------------

  const CLAIM_STATUS := 0

  datatype Row = Row(ttl: int, hash: string, status: int, contentType: string, response: string)

  function NewRow(rec: Record, expires: int): Row {
    Row(Unix(expires), rec.hash, rec.status, rec.contentType, rec.body)
  }

  type Rows<!K> = map<K, Row>

  predicate Free<K>(t: Rows<K>, k: K, now: int) { k !in t || t[k].ttl < Unix(now) }

  function RowClaim<K>(t: Rows<K>, k: K, hash: string, lease: int, now: int): (Rows<K>, Claimed) {
    if Free(t, k, now) then (t[k := NewRow(Record(hash, CLAIM_STATUS, "", ""), now + lease)], Held)
    else
      var cur := t[k];
      (t, if cur.hash != hash then Conflict
          else if cur.status == CLAIM_STATUS then InProgress
          else Replay(Record(cur.hash, cur.status, cur.contentType, cur.response)))
  }

  function RowRelease<K>(t: Rows<K>, k: K): Rows<K> {
    if k in t && t[k].status == CLAIM_STATUS then t - {k} else t
  }

  class DynamoStore {
    var t: Rows<(string, string)>

    constructor () ensures t == map[] { t := map[]; }

    /**
     A refused put reports the row that refused it; if that row is `gone` by
     then, the claim counts as in progress.
     */
    method Claim(scope: string, key: string, hash: string, lease: int, now: int, gone: bool) returns (r: Claimed)
      modifies this
      ensures var k := ("IDEM#" + scope, "KEY#" + key);
              var (t', claimed) := RowClaim(old(t), k, hash, lease, now);
              t == t' && r == if gone && claimed != Held then InProgress else claimed
    {
      var k := ("IDEM#" + scope, "KEY#" + key);
      if k !in t || t[k].ttl < Unix(now) {
        t := t[k := NewRow(Record(hash, CLAIM_STATUS, "", ""), now + lease)];
        return Held;
      }
      if gone { return InProgress; }
      var cur := t[k];
      if cur.hash != hash { return Conflict; }
      if cur.status == CLAIM_STATUS { return InProgress; }
      r := Replay(Record(cur.hash, cur.status, cur.contentType, cur.response));
    }

    method Complete(scope: string, key: string, rec: Record, ttl: int, now: int)
      modifies this
      ensures t == old(t)[("IDEM#" + scope, "KEY#" + key) := NewRow(rec, now + ttl)]
    {
      t := t[("IDEM#" + scope, "KEY#" + key) := NewRow(rec, now + ttl)];
    }

    method Release(scope: string, key: string)
      modifies this
      ensures t == RowRelease(old(t), ("IDEM#" + scope, "KEY#" + key))
      ensures var k := ("IDEM#" + scope, "KEY#" + key);
              t == if k in old(t) && old(t)[k].status == CLAIM_STATUS then old(t) - {k} else old(t)
    {
      var k := ("IDEM#" + scope, "KEY#" + key);
      if k in t && t[k].status == CLAIM_STATUS { t := t - {k}; }
    }
  }

  // ---- The second store simulates the first --------------------------------------------------

  /** The instant at which a row that carries `expires` in whole seconds counts as free. */
  function RoundUp(expires: int): int { (Unix(expires) + 1) * SECOND }

  /** Never earlier than asked, and at most one second later. */
  lemma RoundUpBounds(expires: int)
    ensures expires < RoundUp(expires) <= expires + SECOND
  {}

  /** The row stores this entry. */
  predicate Encodes(row: Row, e: Entry) {
    && e.expires == (row.ttl + 1) * SECOND
    && row.hash == e.rec.hash
    && (row.status == CLAIM_STATUS <==> !e.done)
    && (e.done ==> e.rec == Record(row.hash, row.status, row.contentType, row.response))
  }

  /** At `now` the two tables hold the same live entries; dead ones may differ or be gone. */
  ghost predicate Agree<K(!new)>(rows: Rows<K>, t: Table<K>, now: int) {
    && (forall k :: k in rows && k in t ==> Encodes(rows[k], t[k]) || (Free(rows, k, now) && !Live(t, k, now)))
    && (forall k :: k in rows && k !in t ==> Free(rows, k, now))
    && (forall k :: k !in rows && k in t ==> !Live(t, k, now))
  }

  datatype Event<K> =
    | ClaimE(k: K, hash: string, lease: int)
    | CompleteE(k: K, rec: Record, ttl: int)
    | ReleaseE(k: K)
    | TtlDelete(keys: set<K>)

  /** The DynamoDB store's next rows and answer. The table may delete any row it sees as expired. */
  function RowStep<K>(rows: Rows<K>, e: Event<K>, now: int): (Rows<K>, Option<Claimed>) {
    match e
    case ClaimE(k, hash, lease) => var (rows', r) := RowClaim(rows, k, hash, lease, now); (rows', Some(r))
    case CompleteE(k, rec, ttl) => (rows[k := NewRow(rec, now + ttl)], None)
    case ReleaseE(k) => (RowRelease(rows, k), None)
    case TtlDelete(keys) => (map k | k in rows && !(k in keys && rows[k].ttl < Unix(now)) :: rows[k], None)
  }

  /** The in-memory store's, with a duration d stretched to RoundUp(now + d) - now; it has no TTL deletion. */
  function MemStep<K>(t: Table<K>, e: Event<K>, now: int): (Table<K>, Option<Claimed>) {
    match e
    case ClaimE(k, hash, lease) => var (t', r) := ClaimUntil(t, k, hash, RoundUp(now + lease), now); (t', Some(r))
    case CompleteE(k, rec, ttl) => (CompleteUntil(t, k, rec, RoundUp(now + ttl)), None)
    case ReleaseE(k) => (Released(t, k), None)
    case TtlDelete(_) => (t, None)
  }

  predicate Recordable(status: int) {
    && status !in {401, 403, 408, 409, 423, 425, 429}
    && (200 <= status < 300 || 400 <= status < 500)
  }

  /** Only answers the middleware would record are stored. */
  predicate WellFormed<K>(e: Event<K>) { e.CompleteE? ==> Recordable(e.rec.status) }

  lemma StepAgrees<K(!new)>(rows: Rows<K>, t: Table<K>, e: Event<K>, now: int)
    requires Agree(rows, t, now) && WellFormed(e)
    ensures RowStep(rows, e, now).1 == MemStep(t, e, now).1
    ensures Agree(RowStep(rows, e, now).0, MemStep(t, e, now).0, now)
  {}

  lemma TimePasses<K(!new)>(rows: Rows<K>, t: Table<K>, now: int, later: int)
    requires Agree(rows, t, now) && now <= later
    ensures Agree(rows, t, later)
  {}

  datatype Timed<K> = Timed(e: Event<K>, now: int)

  predicate InOrder<K>(es: seq<Timed<K>>) {
    forall i, j :: 0 <= i < j < |es| ==> es[i].now <= es[j].now
  }

  function RowRun<K>(es: seq<Timed<K>>): (Rows<K>, seq<Option<Claimed>>) {
    if es == [] then (map[], [])
    else
      var (rows, answers) := RowRun(es[..|es| - 1]);
      var (rows', a) := RowStep(rows, es[|es| - 1].e, es[|es| - 1].now);
      (rows', answers + [a])
  }

  function MemRun<K>(es: seq<Timed<K>>): (Table<K>, seq<Option<Claimed>>) {
    if es == [] then (map[], [])
    else
      var (t, answers) := MemRun(es[..|es| - 1]);
      var (t', a) := MemStep(t, es[|es| - 1].e, es[|es| - 1].now);
      (t', answers + [a])
  }

  /**
   Over every history of claims, completions, releases and physical deletions,
   the DynamoDB store answers exactly as the in-memory store with each duration
   rounded up to the next whole second; the deletions are never observed.
   */
  lemma {:induction false} DynamoSimulatesMemory<K(!new)>(es: seq<Timed<K>>)
    requires InOrder(es)
    requires forall i :: 0 <= i < |es| ==> WellFormed(es[i].e)
    ensures RowRun(es).1 == MemRun(es).1
    ensures es != [] ==> Agree(RowRun(es).0, MemRun(es).0, es[|es| - 1].now)
  {
    if es != [] {
      var init, last := es[..|es| - 1], es[|es| - 1];
      DynamoSimulatesMemory(init);
      if init != [] { TimePasses(RowRun(init).0, MemRun(init).0, init[|init| - 1].now, last.now); }
      StepAgrees(RowRun(init).0, MemRun(init).0, last.e, last.now);
    }
  }

  // ---- The request fingerprint ----------------------------------------------------------------

  function Preimage(parts: seq<string>): string {
    if parts == [] then [] else Preimage(parts[..|parts| - 1]) + parts[|parts| - 1] + [NUL]
  }

  /** What hashRequest feeds the hash: each part followed by a NUL byte. */
  method FeedHash(r: Parts) returns (fed: string)
    ensures fed == Fed(r)
  {
    var parts := [r.method_, r.path, r.query, r.body];
    fed := [];
    for i := 0 to |parts|
      invariant fed == Preimage(parts[..i])
    {
      assert parts[..i + 1][..i] == parts[..i];
      fed := fed + parts[i];
      fed := fed + [NUL];
    }
    assert parts[..|parts|] == parts;
  }

  /** The first NUL ends the first part. */
  lemma FirstNulSplits(a: string, x: string, b: string, y: string)
    requires NUL !in a && NUL !in b && a + [NUL] + x == b + [NUL] + y
    ensures a == b && x == y
  {
    var m := a + [NUL] + x;
    assert m[|a|] == NUL && m[|b|] == NUL;
    assert |a| == |b|;
    assert m[..|a|] == a && m[..|a|] == b && m[|a| + 1..] == x && m[|a| + 1..] == y;
  }

  /** The four parts of a request that are fingerprinted. */
  datatype Parts = Parts(method_: string, path: string, query: string, body: string)

  function Fed(r: Parts): string { Preimage([r.method_, r.path, r.query, r.body]) }

  predicate PlainHead(r: Parts) { NUL !in r.method_ && NUL !in r.path && NUL !in r.query }

  /** Requests that differ in method, path, query or body feed different bytes, if the first three hold no NUL. */
  lemma PreimageInjective(r: Parts, r': Parts)
    requires PlainHead(r) && PlainHead(r') && Fed(r) == Fed(r')
    ensures r == r'
  {
    PreimageOfFour(r.method_, r.path, r.query, r.body);
    PreimageOfFour(r'.method_, r'.path, r'.query, r'.body);
    var end, end' := r.body + [NUL], r'.body + [NUL];
    FirstNulSplits(
      r.method_, r.path + [NUL] + (r.query + [NUL] + end), r'.method_, r'.path + [NUL] + (r'.query + [NUL] + end'));
    FirstNulSplits(r.path, r.query + [NUL] + end, r'.path, r'.query + [NUL] + end');
    FirstNulSplits(r.query, end, r'.query, end');
    assert end[..|r.body|] == r.body && end'[..|r'.body|] == r'.body;
  }

  lemma NulsFed(r: Parts)
    ensures multiset(Fed(r))[NUL] ==
              4 + multiset(r.method_)[NUL] + multiset(r.path)[NUL] + multiset(r.query)[NUL] + multiset(r.body)[NUL]
  {
    PreimageOfFour(r.method_, r.path, r.query, r.body);
  }

  lemma SplitAtNul(s: string) returns (x: string, y: string)
    requires NUL in s
    ensures s == x + [NUL] + y && |x| < |s|
  {
    var i :| 0 <= i < |s| && s[i] == NUL;
    x, y := s[..i], s[i + 1..];
  }

  /**
   The separator is not escaped: a request shares its bytes with a different one
   exactly when some part holds a NUL.
   */
  lemma SharedIffNul(r: Parts)
    ensures (exists r' :: r' != r && Fed(r') == Fed(r)) <==>
              NUL in r.method_ || NUL in r.path || NUL in r.query || NUL in r.body
  {
    if PlainHead(r) && NUL !in r.body {
      forall r' | Fed(r') == Fed(r) ensures r' == r {
        NulsFed(r);
        NulsFed(r');
        PreimageInjective(r, r');
      }
    } else {
      var twin := Twin(r);
    }
  }

  /** A NUL read as the separator: the parts around it move over by one. */
  lemma Twin(r: Parts) returns (twin: Parts)
    requires !PlainHead(r) || NUL in r.body
    ensures twin != r && Fed(twin) == Fed(r)
  {
    if NUL in r.method_ {
      var x, y := SplitAtNul(r.method_);
      twin := Parts(x, y, r.path, r.query + [NUL] + r.body);
      FiveInFour(x, y, r.path, r.query, r.body);
    } else if NUL in r.path {
      var x, y := SplitAtNul(r.path);
      twin := Parts(r.method_, x, y, r.query + [NUL] + r.body);
      FiveInFour(r.method_, x, y, r.query, r.body);
    } else if NUL in r.query {
      var x, y := SplitAtNul(r.query);
      twin := Parts(r.method_, r.path, x, y + [NUL] + r.body);
      FiveInFour(r.method_, r.path, x, y, r.body);
    } else {
      var x, y := SplitAtNul(r.body);
      twin := Parts(r.method_, r.path, r.query + [NUL] + x, y);
      FiveInFour(r.method_, r.path, r.query, x, y);
      assert |twin.body| < |r.body|;
    }
  }

  /** Five parts joined into four by a NUL feed the same bytes wherever they are joined. */
  lemma FiveInFour(a: string, b: string, c: string, d: string, e: string)
    ensures Fed(Parts(a + [NUL] + b, c, d, e)) == Fed(Parts(a, b, c, d + [NUL] + e))
    ensures Fed(Parts(a, b + [NUL] + c, d, e)) == Fed(Parts(a, b, c, d + [NUL] + e))
    ensures Fed(Parts(a, b, c + [NUL] + d, e)) == Fed(Parts(a, b, c, d + [NUL] + e))
  {
    PreimageOfFour(a + [NUL] + b, c, d, e);
    PreimageOfFour(a, b + [NUL] + c, d, e);
    PreimageOfFour(a, b, c + [NUL] + d, e);
    PreimageOfFour(a, b, c, d + [NUL] + e);
    JoinNul(d, e, []);
    JoinNul(c, d, e + [NUL]);
    JoinNul(b, c, d + [NUL] + (e + [NUL]));
    JoinNul(a, b, c + [NUL] + (d + [NUL] + (e + [NUL])));
    assert e + [NUL] + [] == e + [NUL] && d + [NUL] + e + [NUL] + [] == d + [NUL] + e + [NUL];
  }

  lemma JoinNul(x: string, y: string, rest: string)
    ensures (x + [NUL] + y) + [NUL] + rest == x + [NUL] + (y + [NUL] + rest)
  {}

  lemma PreimageOfFour(m: string, p: string, q: string, b: string)
    ensures Preimage([m, p, q, b]) == m + [NUL] + (p + [NUL] + (q + [NUL] + (b + [NUL])))
  {
    assert [m, p, q, b][..3] == [m, p, q] && [m, p, q][..2] == [m, p] && [m, p][..1] == [m] && [m][..0] == [];
    assert Preimage([m]) == m + [NUL];
    assert Preimage([m, p]) == m + [NUL] + p + [NUL];
    assert Preimage([m, p, q]) == m + [NUL] + p + [NUL] + q + [NUL];
  }
}
