/**
 The erasure participant's record and its transition function
 (erasure/state.go, erasure/message.go), with the laws that make the
 two-field compare-and-set sound and delivery order irrelevant.
 Times are nanoseconds; a record's `updatedAt` is the clock reading itself.
 */
module Erasure {
  import opened Options
  import opened Clock

  datatype State = Active | Locked | Erased

  datatype Kind = LockMsg | UnlockMsg | EraseMsg | RelinkMsg

  datatype Message = Message(
    kind: Kind, requestId: string, sub: string, services: seq<string>,
    organizations: seq<string>, workspaces: seq<string>, issuedAt: int)

  datatype Record = Record(
    pk: string, state: State, requestId: string, seqNS: int, updatedAt: int, ttl: int)

  const ACTIVE_MEMORY := 30 * 24 * 3600 * SECOND

  function Max(a: int, b: int): int { if a < b then b else a }

  function SubKey(sub: string): string { "SUB#" + sub }

  function OrgKey(org: string): string { "ORG#" + org }

  /** Only the checks a consumer's later steps depend on. */
  predicate ValidMessage(m: Message) {
    m.requestId != "" && m.sub != "" && m.services != []
  }

  predicate Targets(m: Message, service: string) { service in m.services }

  // ---- The transition function ------------------------------------------

  function Previous(cur: Option<Record>, key: string): Record {
    match cur
    case None => Record(key, Active, "", 0, 0, 0)
    case Some(r) => r
  }

  /** The record a message leads to, and whether it must be written. */
  function Apply(cur: Option<Record>, key: string, m: Message, now: int, erasedTTL: int): (Record, bool) {
    var prev := Previous(cur, key);
    var seqNS := m.issuedAt;
    var next := Record(key, Locked, m.requestId, Max(prev.seqNS, seqNS), now, 0);
    if prev.state == Erased then (prev, false)
    else match m.kind
      case EraseMsg =>
        if cur.Some? && prev.state == Active && seqNS <= prev.seqNS then (prev, false)
        else (next.(state := Erased, ttl := if erasedTTL > 0 then Unix(now + erasedTTL) else 0), true)
      case LockMsg =>
        if seqNS <= prev.seqNS then (prev, false) else (next, true)
      case UnlockMsg =>
        if seqNS <= prev.seqNS then (prev, false)
        else (next.(state := Active, ttl := Unix(now + ACTIVE_MEMORY)), true)
      case RelinkMsg => (prev, false)
  }

  /** What Clear would write over `cur`, if anything. */
  function ClearRecord(cur: Option<Record>, key: string, now: int): Option<Record> {
    if cur.None? || cur.value.state != Erased then None
    else Some(Record(key, Active, cur.value.requestId, Max(cur.value.seqNS, now), now, Unix(now + ACTIVE_MEMORY)))
  }

  /** What Relink would write over `cur`, if anything. */
  function RelinkRecord(cur: Option<Record>, key: string, issuedAt: int, now: int): Option<Record> {
    if cur.None? || cur.value.state != Erased || issuedAt <= cur.value.seqNS then None
    else Some(Record(key, Active, cur.value.requestId, issuedAt, now, Unix(now + ACTIVE_MEMORY)))
  }

  /** The condition expression of a put guarded by what was read. */
  predicate CanPut(stored: Option<Record>, cur: Option<Record>) {
    match cur
    case None => stored.None?
    case Some(c) => stored.Some? && stored.value.seqNS == c.seqNS && stored.value.state == c.state
  }

  /** Every workspace erased with the user, without adding duplicates. */
  method WorkspaceIDs(m: Message) returns (out: seq<string>)
    ensures out == Workspaces(m)
  {
    out := m.organizations;
    for i := 0 to |m.workspaces|
      invariant out == Merge(m.organizations, m.workspaces[..i])
    {
      assert m.workspaces[..i + 1] == m.workspaces[..i] + [m.workspaces[i]];
      if m.workspaces[i] !in out {
        out := out + [m.workspaces[i]];
      }
    }
    assert m.workspaces[..|m.workspaces|] == m.workspaces;
  }

  function Merge(base: seq<string>, extra: seq<string>): seq<string> {
    if extra == [] then base
    else
      var init := Merge(base, extra[..|extra| - 1]);
      var last := extra[|extra| - 1];
      if last in init then init else init + [last]
  }

  function Workspaces(m: Message): seq<string> { Merge(m.organizations, m.workspaces) }

  /** Workspaces loses no id, invents none, and repeats none the organizations did not repeat. */
  lemma {:induction false} WorkspacesExact(base: seq<string>, extra: seq<string>)
    ensures forall id :: id in Merge(base, extra) <==> id in base || id in extra
    ensures base <= Merge(base, extra)
    ensures (forall i, j :: 0 <= i < j < |base| ==> base[i] != base[j]) ==>
              forall i, j :: 0 <= i < j < |Merge(base, extra)| ==> Merge(base, extra)[i] != Merge(base, extra)[j]
  {
    if extra != [] {
      WorkspacesExact(base, extra[..|extra| - 1]);
      assert extra == extra[..|extra| - 1] + [extra[|extra| - 1]];
    }
  }

  // ---- Writes climb a strict order ----------------------------------------

  function Rank(s: State): nat {
    match s
    case Locked => 0
    case Erased => 1
    case Active => 2
  }

  /** (seqNS, rank) lexicographically: the order every write climbs. */
  predicate Below(a: Record, b: Record) {
    a.seqNS < b.seqNS || (a.seqNS == b.seqNS && Rank(a.state) < Rank(b.state))
  }

  /** `b` may stand where `a` was read: the same record, or one written later. */
  predicate NotAfter(a: Record, b: Record) { a == b || Below(a, b) }

  lemma BelowIsStrictOrder(a: Record, b: Record, c: Record)
    ensures !Below(a, a)
    ensures Below(a, b) && Below(b, c) ==> Below(a, c)
    ensures NotAfter(a, b) && NotAfter(b, c) ==> NotAfter(a, c)
  {}

  /** Every record any operation writes is strictly above the record it replaces. */
  lemma WritesClimb(cur: Record, key: string, m: Message, issuedAt: int, now: int, erasedTTL: int)
    ensures Apply(Some(cur), key, m, now, erasedTTL).1 ==> Below(cur, Apply(Some(cur), key, m, now, erasedTTL).0)
    ensures ClearRecord(Some(cur), key, now).Some? ==> Below(cur, ClearRecord(Some(cur), key, now).value)
    ensures RelinkRecord(Some(cur), key, issuedAt, now).Some? ==>
              Below(cur, RelinkRecord(Some(cur), key, issuedAt, now).value)
  {}

  /** Hence the two compared fields stand for the whole record (no ABA). */
  lemma TwoFieldsIdentifyTheRecord(read: Record, stored: Record)
    requires NotAfter(read, stored)
    ensures CanPut(Some(stored), Some(read)) <==> stored == read
  {}

  /** A redelivered message finds nothing left to do. */
  lemma ApplyIsIdempotent(cur: Option<Record>, key: string, m: Message, now: int, later: int, ttl: int)
    ensures var (r, changed) := Apply(cur, key, m, now, ttl);
            changed ==> Apply(Some(r), key, m, later, ttl) == (r, false)
  {}

  /**
   A user who came back, by Clear or by Relink, cannot be wiped by anything
   older: every lock, unlock or erase issued by then is stale, and the record
   still names the request whose purge was done.
   */
  lemma ReturningUserIsSafe(cur: Record, key: string, issuedAt: int, now: int, m: Message, later: int, ttl: int)
    ensures var r := ClearRecord(Some(cur), key, now);
            r.Some? ==>
              && r.value.state == Active && r.value.requestId == cur.requestId
              && (m.issuedAt <= now || m.issuedAt <= cur.seqNS ==> Apply(r, key, m, later, ttl) == (r.value, false))
    ensures var r := RelinkRecord(Some(cur), key, issuedAt, now);
            r.Some? ==>
              && r.value.state == Active && r.value.requestId == cur.requestId
              && (m.issuedAt <= issuedAt ==> Apply(r, key, m, later, ttl) == (r.value, false))
    ensures RelinkRecord(Some(cur), key, issuedAt, now).Some? <==> cur.state == Erased && cur.seqNS < issuedAt
  {}

  /** A lock, unlock or erase that still has something to say to the record. */
  predicate TakesEffect(cur: Option<Record>, key: string, m: Message, now: int, ttl: int) {
    Apply(cur, key, m, now, ttl).1
  }

  /**
   And is not shielded from anything newer: over an erased record, and only over
   one, Clear lets through exactly what is issued after both the clock it was
   called at and the erasure it undoes, and Relink exactly what is issued after it.
   */
  lemma ReturningUserCanLeaveAgain(cur: Record, key: string, issuedAt: int, now: int, m: Message, later: int, ttl: int)
    ensures ClearRecord(Some(cur), key, now).Some? <==> cur.state == Erased
    ensures cur.state == Erased && m.kind != RelinkMsg ==>
              (TakesEffect(ClearRecord(Some(cur), key, now), key, m, later, ttl) <==>
                m.issuedAt > now && m.issuedAt > cur.seqNS)
    ensures cur.state == Erased && cur.seqNS < issuedAt && m.kind != RelinkMsg ==>
              (TakesEffect(RelinkRecord(Some(cur), key, issuedAt, now), key, m, later, ttl) <==> m.issuedAt > issuedAt)
  {}

  // ---- How long the table remembers ---------------------------------------------

  /** DynamoDB may delete the record: its TTL is set and over. */
  predicate MayForget(r: Record, now: int) { r.ttl != 0 && r.ttl < Unix(now) }

  /** Whether a record kept for `span` after `written` may be gone at `now`; whole seconds leave up to one open. */
  predicate KeptFor(r: Record, written: int, span: int, now: int) {
    && (MayForget(r, now) ==> now >= written + span)
    && (now >= written + span + SECOND ==> MayForget(r, now))
  }

  /** A record under its key, dated by the write, that stays as long as its state calls for. */
  predicate Remembered(r: Record, key: string, now: int, erasedTTL: int, t: int) {
    && r.pk == key && r.updatedAt == now
    && match r.state
       case Locked => !MayForget(r, t)
       case Erased => if erasedTTL > 0 then KeptFor(r, now, erasedTTL, t) else !MayForget(r, t)
       case Active => KeptFor(r, now, ACTIVE_MEMORY, t)
  }

  /**
   A lock is never forgotten, a tombstone for erasedTTL or never, an active
   record for thirty days, whichever operation wrote it.
   */
  lemma RememberedLongEnough(
    cur: Option<Record>, key: string, m: Message, issuedAt: int, now: int, erasedTTL: int, t: int)
    requires now >= SECOND
    ensures Apply(cur, key, m, now, erasedTTL).1 ==>
              Remembered(Apply(cur, key, m, now, erasedTTL).0, key, now, erasedTTL, t)
    ensures var cleared := ClearRecord(cur, key, now);
            cleared.Some? ==> cleared.value.state == Active && Remembered(cleared.value, key, now, erasedTTL, t)
    ensures var relinked := RelinkRecord(cur, key, issuedAt, now);
            relinked.Some? ==> relinked.value.state == Active && Remembered(relinked.value, key, now, erasedTTL, t)
  {}

  // ---- Delivery order does not matter -------------------------------------

  datatype Delivery = Delivery(m: Message, now: int)

  function Deliver(cur: Option<Record>, key: string, d: Delivery, ttl: int): Option<Record> {
    var (r, changed) := Apply(cur, key, d.m, d.now, ttl);
    if changed then Some(r) else cur
  }

  function DeliverAll(ds: seq<Delivery>, key: string, ttl: int): Option<Record> {
    if ds == [] then None
    else Deliver(DeliverAll(ds[..|ds| - 1], key, ttl), key, ds[|ds| - 1], ttl)
  }

  predicate LockOrUnlock(d: Delivery) { d.m.kind in {LockMsg, UnlockMsg} && d.m.issuedAt > 0 }

  /** The newest message of a delivery sequence. */
  predicate Newest(ds: seq<Delivery>, m: Message) {
    (exists i :: 0 <= i < |ds| && ds[i].m == m) &&
    forall i :: 0 <= i < |ds| ==> ds[i].m.issuedAt <= m.issuedAt
  }

  predicate SameClockSameMessage(ds: seq<Delivery>) {
    forall i, j :: 0 <= i < |ds| && 0 <= j < |ds| && ds[i].m.issuedAt == ds[j].m.issuedAt ==> ds[i].m == ds[j].m
  }

  /** The record is where the newest lock or unlock put it. */
  predicate PutBy(r: Option<Record>, newest: Message, key: string) {
    && r.Some?
    && r.value.state == (if newest.kind == LockMsg then Locked else Active)
    && r.value.requestId == newest.requestId
    && r.value.seqNS == newest.issuedAt
    && r.value.pk == key
  }

  lemma OneMore(r: Option<Record>, before: Message, d: Delivery, key: string, ttl: int)
    requires PutBy(r, before, key) && LockOrUnlock(d)
    ensures PutBy(Deliver(r, key, d, ttl), if before.issuedAt < d.m.issuedAt then d.m else before, key)
  {}

  /** Any order, any duplication: the record ends where the newest lock or unlock put it. */
  lemma {:induction false} NewestWins(ds: seq<Delivery>, newest: Message, key: string, ttl: int)
    requires forall i :: 0 <= i < |ds| ==> LockOrUnlock(ds[i])
    requires SameClockSameMessage(ds)
    requires Newest(ds, newest)
    ensures PutBy(DeliverAll(ds, key, ttl), newest, key)
  {
    var init, last := ds[..|ds| - 1], ds[|ds| - 1];
    if init != [] {
      var before := NewestOf(init);
      NewestWins(init, before, key, ttl);
      OneMore(DeliverAll(init, key, ttl), before, last, key, ttl);
      NewestOfMore(ds, before, newest);
    }
  }

  lemma NewestOfMore(ds: seq<Delivery>, before: Message, newest: Message)
    requires |ds| >= 2 && SameClockSameMessage(ds)
    requires Newest(ds[..|ds| - 1], before) && Newest(ds, newest)
    ensures newest == if before.issuedAt < ds[|ds| - 1].m.issuedAt then ds[|ds| - 1].m else before
  {}

  lemma {:induction false} NewestOf(ds: seq<Delivery>) returns (m: Message)
    requires ds != []
    ensures Newest(ds, m)
  {
    m := ds[0].m;
    for i := 1 to |ds|
      invariant exists j :: 0 <= j < |ds| && ds[j].m == m
      invariant forall j :: 0 <= j < i ==> ds[j].m.issuedAt <= m.issuedAt
    {
      if m.issuedAt < ds[i].m.issuedAt { m := ds[i].m; }
    }
  }

  /** An erase newer than every unlock delivered. */
  predicate Decisive(ds: seq<Delivery>, e: Message) {
    e.kind == EraseMsg &&
    (exists i :: 0 <= i < |ds| && ds[i].m == e) &&
    forall i :: 0 <= i < |ds| && ds[i].m.kind == UnlockMsg ==> ds[i].m.issuedAt < e.issuedAt
  }

  predicate Ordinary(d: Delivery) { d.m.kind != RelinkMsg && d.m.issuedAt > 0 }

  /** While a record is active, its sequence is that of an unlock delivered so far. */
  lemma {:induction false} ActiveMeansUnlocked(ds: seq<Delivery>, key: string, ttl: int)
    requires forall i :: 0 <= i < |ds| ==> ds[i].m.kind != RelinkMsg
    ensures var r := DeliverAll(ds, key, ttl);
            r.Some? && r.value.state == Active ==>
              exists i :: 0 <= i < |ds| && ds[i].m.kind == UnlockMsg && ds[i].m.issuedAt == r.value.seqNS
  {
    if ds != [] {
      var init := ds[..|ds| - 1];
      ActiveMeansUnlocked(init, key, ttl);
      var r := DeliverAll(ds, key, ttl);
      if r.Some? && r.value.state == Active {
        if r == DeliverAll(init, key, ttl) {
          var i :| 0 <= i < |init| && init[i].m.kind == UnlockMsg && init[i].m.issuedAt == r.value.seqNS;
          assert ds[i].m == init[i].m;
        } else {
          assert ds[|ds| - 1].m.kind == UnlockMsg;
        }
      }
    }
  }

  lemma {:induction false} DecisiveEraseWins(ds: seq<Delivery>, e: Message, key: string, ttl: int)
    requires forall i :: 0 <= i < |ds| ==> ds[i].m.kind != RelinkMsg
    requires Decisive(ds, e)
    ensures DeliverAll(ds, key, ttl).Some? && DeliverAll(ds, key, ttl).value.state == Erased
  {
    var init := ds[..|ds| - 1];
    assert forall i :: 0 <= i < |init| ==> init[i] == ds[i];
    var w :| 0 <= w < |ds| && ds[w].m == e;
    if w < |init| {
      assert init[w].m == e;
      DecisiveEraseWins(init, e, key, ttl);
    } else {
      ActiveMeansUnlocked(init, key, ttl);
    }
  }

  // An order that dodges every erase, when no erase is decisive: the newest
  // unlock first, then every erase (all stale by then), then the locks.

  function Keep(ds: seq<Delivery>, erases: bool): seq<Delivery> {
    if ds == [] then []
    else
      var init, last := Keep(ds[..|ds| - 1], erases), ds[|ds| - 1];
      if (last.m.kind == EraseMsg) == erases then init + [last] else init
  }

  lemma {:induction false} KeepSplits(ds: seq<Delivery>)
    ensures multiset(Keep(ds, true)) + multiset(Keep(ds, false)) == multiset(ds)
  {
    if ds != [] {
      KeepSplits(ds[..|ds| - 1]);
      assert ds == ds[..|ds| - 1] + [ds[|ds| - 1]];
    }
  }

  lemma {:induction false} KeepSelects(ds: seq<Delivery>, erases: bool)
    ensures forall i :: 0 <= i < |Keep(ds, erases)| ==>
              Keep(ds, erases)[i] in ds && (Keep(ds, erases)[i].m.kind == EraseMsg) == erases
  {
    if ds != [] { KeepSelects(ds[..|ds| - 1], erases); }
  }

  /** Once the newest unlock is in, stale messages and later locks never erase. */
  lemma {:induction false} StaleErasesDoNothing(
    u: Delivery, erases: seq<Delivery>, rest: seq<Delivery>, key: string, ttl: int)
    requires u.m.kind == UnlockMsg && u.m.issuedAt > 0
    requires forall i :: 0 <= i < |erases| ==> erases[i].m.kind == EraseMsg && erases[i].m.issuedAt <= u.m.issuedAt
    requires forall i :: 0 <= i < |rest| ==> rest[i].m.kind in {LockMsg, UnlockMsg}
    ensures var r := DeliverAll([u] + erases + rest, key, ttl);
            && r.Some? && r.value.state != Erased
            && (rest == [] ==> r.value.state == Active && r.value.seqNS == u.m.issuedAt)
    decreases |erases| + |rest|
  {
    var all := [u] + erases + rest;
    var init := all[..|all| - 1];
    if rest != [] {
      assert init == [u] + erases + rest[..|rest| - 1];
      StaleErasesDoNothing(u, erases, rest[..|rest| - 1], key, ttl);
    } else if erases != [] {
      assert init == [u] + erases[..|erases| - 1] + [];
      StaleErasesDoNothing(u, erases[..|erases| - 1], [], key, ttl);
    } else {
      assert init == [];
      assert all[|all| - 1] == u;
      assert DeliverAll(init, key, ttl) == None;
    }
  }

  lemma {:induction false} NewestUnlock(ds: seq<Delivery>, w: nat) returns (u: nat)
    requires w < |ds| && ds[w].m.kind == UnlockMsg
    ensures u < |ds| && ds[u].m.kind == UnlockMsg
    ensures forall i :: 0 <= i < |ds| && ds[i].m.kind == UnlockMsg ==> ds[i].m.issuedAt <= ds[u].m.issuedAt
  {
    u := w;
    for i := 0 to |ds|
      invariant u < |ds| && ds[u].m.kind == UnlockMsg
      invariant forall j :: 0 <= j < i && ds[j].m.kind == UnlockMsg ==> ds[j].m.issuedAt <= ds[u].m.issuedAt
    {
      if ds[i].m.kind == UnlockMsg && ds[u].m.issuedAt < ds[i].m.issuedAt { u := i; }
    }
  }

  ghost predicate Reordering(a: seq<Delivery>, b: seq<Delivery>) { multiset(a) == multiset(b) }

  /** The newest unlock moved to the front, then the erases, then everything else. */
  function DodgingOrder(ds: seq<Delivery>, u: nat): seq<Delivery>
    requires u < |ds|
  {
    var others := ds[..u] + ds[u + 1..];
    [ds[u]] + Keep(others, true) + Keep(others, false)
  }

  lemma MultisetOfThree(a: seq<Delivery>, b: seq<Delivery>, c: seq<Delivery>)
    ensures multiset(a + b + c) == multiset(a) + multiset(b) + multiset(c)
  {}

  lemma MoveToFront(
    x: seq<Delivery>, before: seq<Delivery>, after: seq<Delivery>, kept: seq<Delivery>, rest: seq<Delivery>)
    requires multiset(kept) + multiset(rest) == multiset(before + after)
    ensures Reordering(x + kept + rest, before + x + after)
  {
    MultisetOfThree(x, kept, rest);
    MultisetOfThree(before, x, after);
    assert multiset(before + after) == multiset(before) + multiset(after);
    var mx, mk, mr, mb, ma := multiset(x), multiset(kept), multiset(rest), multiset(before), multiset(after);
    assert mx + mk + mr == mx + (mk + mr);
    assert mx + (mb + ma) == mb + mx + ma;
  }

  lemma DodgingOrderReorders(ds: seq<Delivery>, u: nat)
    requires u < |ds|
    ensures Reordering(DodgingOrder(ds, u), ds)
  {
    var others := ds[..u] + ds[u + 1..];
    KeepSplits(others);
    assert ds[..u] + [ds[u]] + ds[u + 1..] == ds;
    MoveToFront([ds[u]], ds[..u], ds[u + 1..], Keep(others, true), Keep(others, false));
  }

  lemma Dodge(ds: seq<Delivery>, u: nat, key: string, ttl: int)
    requires forall i :: 0 <= i < |ds| ==> Ordinary(ds[i])
    requires u < |ds| && ds[u].m.kind == UnlockMsg
    requires forall i :: 0 <= i < |ds| && ds[i].m.kind == EraseMsg ==> ds[i].m.issuedAt <= ds[u].m.issuedAt
    ensures DeliverAll(DodgingOrder(ds, u), key, ttl).Some?
    ensures DeliverAll(DodgingOrder(ds, u), key, ttl).value.state != Erased
  {
    var others := ds[..u] + ds[u + 1..];
    KeepSelects(others, true);
    KeepSelects(others, false);
    var erases, rest := Keep(others, true), Keep(others, false);
    forall d | d in others ensures exists i :: 0 <= i < |ds| && ds[i] == d {}
    StaleErasesDoNothing(ds[u], erases, rest, key, ttl);
  }

  lemma {:induction false} NeverErased(ds: seq<Delivery>, key: string, ttl: int)
    requires forall i :: 0 <= i < |ds| ==> ds[i].m.kind != EraseMsg
    ensures DeliverAll(ds, key, ttl).None? || DeliverAll(ds, key, ttl).value.state != Erased
  {
    if ds != [] { NeverErased(ds[..|ds| - 1], key, ttl); }
  }

  /** Exactly when the user is erased however the queue shuffles: some erase is newer than every unlock. */
  lemma EveryOrderErases(ds: seq<Delivery>, key: string, ttl: int)
    requires forall i :: 0 <= i < |ds| ==> Ordinary(ds[i])
    ensures (forall order :: Reordering(order, ds) ==>
               DeliverAll(order, key, ttl).Some? && DeliverAll(order, key, ttl).value.state == Erased)
            <==> exists e :: Decisive(ds, e)
  {
    if e :| Decisive(ds, e) {
      forall order | Reordering(order, ds)
        ensures DeliverAll(order, key, ttl).Some? && DeliverAll(order, key, ttl).value.state == Erased
      {
        SameMessages(order, ds);
        SameMessages(ds, order);
        var w :| 0 <= w < |ds| && ds[w].m == e;
        assert ds[w] in order;
        assert forall i :: 0 <= i < |order| ==> order[i] in ds;
        DecisiveEraseWins(order, e, key, ttl);
      }
    } else if w :| 0 <= w < |ds| && ds[w].m.kind == UnlockMsg {
      var u := NewestUnlock(ds, w);
      forall i | 0 <= i < |ds| && ds[i].m.kind == EraseMsg ensures ds[i].m.issuedAt <= ds[u].m.issuedAt {
        assert !Decisive(ds, ds[i].m);
      }
      DodgingOrderReorders(ds, u);
      Dodge(ds, u, key, ttl);
    } else {
      forall i | 0 <= i < |ds| ensures ds[i].m.kind != EraseMsg {
        assert !Decisive(ds, ds[i].m);
      }
      NeverErased(ds, key, ttl);
      assert Reordering(ds, ds);
    }
  }

  lemma SameMessages(a: seq<Delivery>, b: seq<Delivery>)
    requires Reordering(a, b)
    ensures forall d :: d in a ==> d in b
  {
    forall d | d in a ensures d in b { assert d in multiset(b); }
  }
}
