/**
 Many consumers of one queue over one erasure table (erasure/consumer.go,
 erasure/state.go), as interleaved steps: deliver, read, conditional put,
 purge, ack, Clear and Relink. Reads are consistent, put outcomes truthful,
 and records are never deleted. A consumer that gets any store, purge or ack
 error drops to idle and leaves the message for redelivery.
 */
module ErasureRun {
  import opened Options
  import opened Erasure

  type Table = map<string, Record>

  // ---- Operations on one record, as if done in one instant ----------------

  datatype Op =
    | ApplyOp(key: string, m: Message)
    | ClearOp(sub: string)
    | RelinkOp(sub: string, issuedAt: int)

  function OpKey(op: Op): string {
    match op
    case ApplyOp(key, _) => key
    case ClearOp(sub) => SubKey(sub)
    case RelinkOp(sub, _) => SubKey(sub)
  }

  /** The record the operation writes over `cur`, if it writes. */
  function OpWrite(cur: Option<Record>, op: Op, now: int, ttl: int): Option<Record> {
    match op
    case ApplyOp(key, m) => var (r, changed) := Apply(cur, key, m, now, ttl); if changed then Some(r) else None
    case ClearOp(sub) => ClearRecord(cur, SubKey(sub), now)
    case RelinkOp(sub, issuedAt) => RelinkRecord(cur, SubKey(sub), issuedAt, now)
  }

  /** The record the operation reports: the one it wrote, or the one it left alone. */
  function OpAnswer(cur: Option<Record>, op: Op, now: int, ttl: int): Record {
    match OpWrite(cur, op, now, ttl)
    case Some(r) => r
    case None => Previous(cur, OpKey(op))
  }

  function Atomic(t: Table, op: Op, now: int, ttl: int): Table {
    match OpWrite(Lookup(t, OpKey(op)), op, now, ttl)
    case Some(r) => t[OpKey(op) := r]
    case None => t
  }

  /** A completed operation: what it was, its clock reading, what it reported. */
  datatype Commit = Commit(op: Op, now: int, answer: Record)

  function Replay(log: seq<Commit>, ttl: int): Table {
    if log == [] then map[]
    else
      var last := log[|log| - 1];
      Atomic(Replay(log[..|log| - 1], ttl), last.op, last.now, ttl)
  }

  /** Every completed operation reported what a serial execution would have. */
  predicate Serial(log: seq<Commit>, ttl: int) {
    log == [] ||
    var init, last := log[..|log| - 1], log[|log| - 1];
    Serial(init, ttl) && last.answer == OpAnswer(Lookup(Replay(init, ttl), OpKey(last.op)), last.op, last.now, ttl)
  }

  // ---- One consumer's program counter --------------------------------------

  datatype Then = Finish | AfterLock(m: Message) | AfterOrg(m: Message, i: nat) | AfterSub(m: Message)

  datatype Result = Done | Blocked

  datatype Proc =
    | Idle
    | Reading(op: Op, attempt: nat, then_: Then)
    | Putting(op: Op, attempt: nat, cur: Option<Record>, now: int, then_: Then)
    | Purging(m: Message)
    | Acking(m: Message, result: Result, purgedHere: bool)

  /**
   purged and acked hold (sub, request id) pairs and messages; held, the subs
   ever locked or erased; writes, how often each key was written.
   */
  datatype World = World(
    table: Table, log: seq<Commit>, held: set<string>,
    purged: set<(string, string)>, acked: set<(Message, bool)>, writes: map<string, nat>)

  function Writes(w: World, key: string): nat { if key in w.writes then w.writes[key] else 0 }

  datatype System = System(w: World, procs: map<nat, Proc>)

  /** `sent` is every message ever put on the queue. */
  datatype Config = Config(service: string, erasedTTL: int, sent: set<Message>)

  const ATTEMPTS := 3

  function Tombstone(m: Message, i: nat): Proc {
    if i < |Workspaces(m)| then Reading(ApplyOp(OrgKey(Workspaces(m)[i]), m), 0, AfterOrg(m, i))
    else Reading(ApplyOp(SubKey(m.sub), m), 0, AfterSub(m))
  }

  /** Where handle goes once the store answered. */
  function Continue(then_: Then, answer: Record): Proc {
    match then_
    case Finish => Idle
    case AfterLock(m) =>
      if answer.state != Active then Purging(m)
      else if answer.requestId != m.requestId then Idle
      else Acking(m, Done, false)
    case AfterOrg(m, i) => Tombstone(m, i + 1)
    case AfterSub(m) => Acking(m, Done, true)
  }

  function Handle(m: Message): Proc {
    match m.kind
    case RelinkMsg => Reading(RelinkOp(m.sub, m.issuedAt), ATTEMPTS - 1, Finish)
    case EraseMsg => Reading(ApplyOp(SubKey(m.sub), m.(kind := LockMsg)), 0, AfterLock(m))
    case _ => Reading(ApplyOp(SubKey(m.sub), m), 0, Finish)
  }

  datatype Step =
    | Deliver(p: nat, m: Message)
    | StartClear(p: nat, sub: string)
    | Read(p: nat, now: int)
    | Put(p: nat)
    | PurgeReturns(p: nat, result: Result)
    | Send(p: nat)
    | Fail(p: nat)

  function At(s: System, p: nat): Proc { if p in s.procs then s.procs[p] else Idle }

  function Goto(s: System, p: nat, w: World, q: Proc): Option<System> {
    Some(System(w, s.procs[p := q]))
  }

  /** The world once `op`, read at `now`, has taken effect with `answer`. */
  function Committed(c: Config, w: World, op: Op, now: int): World {
    var cur := Lookup(w.table, OpKey(op));
    var answer := OpAnswer(cur, op, now, c.erasedTTL);
    w.(table := Atomic(w.table, op, now, c.erasedTTL),
       writes := if OpWrite(cur, op, now, c.erasedTTL).Some?
         then w.writes[OpKey(op) := Writes(w, OpKey(op)) + 1] else w.writes,
       log := w.log + [Commit(op, now, answer)],
       held := if op.ApplyOp? && op.key == SubKey(op.m.sub) && answer.state != Active then w.held + {op.m.sub}
         else w.held)
  }

  /** A conditional put that passed: the pending record replaces whatever is stored. */
  function Stored(c: Config, w: World, op: Op, cur: Option<Record>, now: int): World
    requires OpWrite(cur, op, now, c.erasedTTL).Some?
  {
    var next := OpWrite(cur, op, now, c.erasedTTL).value;
    w.(table := w.table[OpKey(op) := next],
       writes := w.writes[OpKey(op) := Writes(w, OpKey(op)) + 1],
       log := w.log + [Commit(op, now, next)],
       held := if op.ApplyOp? && op.key == SubKey(op.m.sub) && next.state != Active then w.held + {op.m.sub}
         else w.held)
  }

  /** One step; None when it cannot be taken. */
  function Do(c: Config, s: System, step: Step): Option<System> {
    var q := At(s, step.p);
    match step
    case Deliver(p, m) =>
      if q.Idle? && Queued(c, m)
      then Goto(s, p, s.w, Handle(m)) else None
    case StartClear(p, sub) =>
      if q.Idle? then Goto(s, p, s.w, Reading(ClearOp(sub), ATTEMPTS - 1, Finish)) else None
    case Read(p, now) =>
      if !q.Reading? then None
      else
        var cur := Lookup(s.w.table, OpKey(q.op));
        if OpWrite(cur, q.op, now, c.erasedTTL).Some?
        then Goto(s, p, s.w, Putting(q.op, q.attempt, cur, now, q.then_))
        else Goto(s, p, Committed(c, s.w, q.op, now), Continue(q.then_, OpAnswer(cur, q.op, now, c.erasedTTL)))
    case Put(p) =>
      if !q.Putting? || OpWrite(q.cur, q.op, q.now, c.erasedTTL).None? then None
      else if CanPut(Lookup(s.w.table, OpKey(q.op)), q.cur)
      then Goto(s, p, Stored(c, s.w, q.op, q.cur, q.now),
                Continue(q.then_, OpWrite(q.cur, q.op, q.now, c.erasedTTL).value))
      else Goto(s, p, s.w, if q.attempt + 1 < ATTEMPTS then Reading(q.op, q.attempt + 1, q.then_) else Idle)
    case PurgeReturns(p, result) =>
      if !q.Purging? then None
      else if result == Done
      then Goto(s, p, s.w.(purged := s.w.purged + {(q.m.sub, q.m.requestId)}), Tombstone(q.m, 0))
      else Goto(s, p, s.w, Acking(q.m, Blocked, false))
    case Send(p) =>
      if !q.Acking? then None
      else Goto(s, p, if q.result == Done then s.w.(acked := s.w.acked + {(q.m, q.purgedHere)}) else s.w, Idle)
    case Fail(p) => Goto(s, p, s.w, Idle)
  }

  const START := System(World(map[], [], {}, {}, {}, map[]), map[])

  /** The state after a whole interleaving, if every step could be taken. */
  function Run(c: Config, steps: seq<Step>): Option<System> {
    if steps == [] then Some(START)
    else
      var before := Run(c, steps[..|steps| - 1]);
      if before.None? then None else Do(c, before.value, steps[|steps| - 1])
  }

  // ---- What every step keeps ------------------------------------------------

  /** A message some consumer of this service may be handed. */
  predicate Queued(c: Config, m: Message) { m in c.sent && ValidMessage(m) && Targets(m, c.service) }

  /** An unlock that makes an erase of the same request look already done. */
  predicate Masks(u: Message, e: Message) {
    u.kind == UnlockMsg && u.sub == e.sub && u.requestId == e.requestId && u.issuedAt >= e.issuedAt && u.issuedAt > 0
  }

  ghost predicate Masked(c: Config, e: Message) { exists u :: Queued(c, u) && Masks(u, e) }

  /** Why the store may hold this record for `sub`. */
  ghost predicate Justified(c: Config, w: World, sub: string, r: Record) {
    && r.seqNS >= 0
    && (r.state != Active ==> sub in w.held)
    && (r.state == Erased ==> (sub, r.requestId) in w.purged)
    && (r.state == Active ==>
          (sub, r.requestId) in w.purged ||
          exists u :: Queued(c, u) && u.kind == UnlockMsg && u.sub == sub && u.requestId == r.requestId
                      && u.issuedAt == r.seqNS && u.issuedAt > 0)
  }

  predicate Tombstoned(w: World, org: string) {
    OrgKey(org) in w.table && w.table[OrgKey(org)].state == Erased
  }

  predicate TombstonedUpTo(w: World, m: Message, n: nat) {
    forall i :: 0 <= i < n && i < |Workspaces(m)| ==> Tombstoned(w, Workspaces(m)[i])
  }

  ghost predicate TableInv(c: Config, w: World) {
    && (forall sub {:trigger SubKey(sub)} :: SubKey(sub) in w.table ==> Justified(c, w, sub, w.table[SubKey(sub)]))
    && (forall org {:trigger OrgKey(org)} :: OrgKey(org) in w.table ==> w.table[OrgKey(org)].state == Erased)
    && forall a :: a in w.acked ==>
         && EraseIn(c, a.0)
         && ((a.0.sub, a.0.requestId) in w.purged || Masked(c, a.0))
         && (a.1 ==> (a.0.sub, a.0.requestId) in w.purged && TombstonedUpTo(w, a.0, |Workspaces(a.0)|))
  }

  /** The table is what the log replays to, and the log is serial. */
  predicate LogInv(c: Config, w: World) { w.table == Replay(w.log, c.erasedTTL) && Serial(w.log, c.erasedTTL) }

  predicate EraseIn(c: Config, m: Message) { Queued(c, m) && m.kind == EraseMsg }

  /** The operation a consumer runs fits the place in handle it will return to. */
  predicate Fits(c: Config, w: World, op: Op, then_: Then) {
    match then_
    case Finish =>
      !op.ApplyOp? || (op.key == SubKey(op.m.sub) && Queued(c, op.m) && op.m.kind in {LockMsg, UnlockMsg})
    case AfterLock(m) =>
      EraseIn(c, m) && op == ApplyOp(SubKey(m.sub), m.(kind := LockMsg))
    case AfterOrg(m, i) =>
      && EraseIn(c, m) && i < |Workspaces(m)| && op == ApplyOp(OrgKey(Workspaces(m)[i]), m)
      && (m.sub, m.requestId) in w.purged && TombstonedUpTo(w, m, i)
    case AfterSub(m) =>
      && EraseIn(c, m) && op == ApplyOp(SubKey(m.sub), m)
      && (m.sub, m.requestId) in w.purged && TombstonedUpTo(w, m, |Workspaces(m)|)
  }

  /** What was read is still there, or something written above it is. */
  predicate ReadBelow(t: Table, key: string, cur: Option<Record>) {
    cur.Some? ==> key in t && NotAfter(cur.value, t[key])
  }

  ghost predicate ProcInv(c: Config, w: World, q: Proc) {
    match q
    case Idle => true
    case Reading(op, _, then_) => Fits(c, w, op, then_)
    case Putting(op, _, cur, now, then_) =>
      Fits(c, w, op, then_) && ReadBelow(w.table, OpKey(op), cur) && OpWrite(cur, op, now, c.erasedTTL).Some?
    case Purging(m) => EraseIn(c, m) && m.sub in w.held
    case Acking(m, result, purgedHere) =>
      EraseIn(c, m) && (result == Done ==>
        && ((m.sub, m.requestId) in w.purged || Masked(c, m))
        && (purgedHere ==> (m.sub, m.requestId) in w.purged && TombstonedUpTo(w, m, |Workspaces(m)|)))
  }

  ghost predicate Inv(c: Config, s: System) {
    TableInv(c, s.w) && LogInv(c, s.w) && forall p :: p in s.procs ==> ProcInv(c, s.w, s.procs[p])
  }

  /** How one consumer's step may change the world under all the others. */
  ghost predicate Advance(w: World, w': World) {
    && (forall k :: k in w.table ==> k in w'.table && NotAfter(w.table[k], w'.table[k]))
    && w.purged <= w'.purged && w.held <= w'.held
    && forall k :: CountsWrites(w, w', k)
  }

  /** Writes are only ever added, and a record changes only by one. */
  predicate CountsWrites(w: World, w': World, k: string) {
    Writes(w, k) <= Writes(w', k) && (Writes(w, k) == Writes(w', k) ==> Lookup(w.table, k) == Lookup(w'.table, k))
  }

  lemma KeysApart(a: string, b: string)
    ensures SubKey(a) != OrgKey(b)
    ensures SubKey(a) == SubKey(b) <==> a == b
    ensures OrgKey(a) == OrgKey(b) <==> a == b
  {
    assert SubKey(a)[0] == 'S' && OrgKey(b)[0] == 'O';
    assert SubKey(a)[4..] == a && SubKey(b)[4..] == b;
    assert OrgKey(a)[4..] == a && OrgKey(b)[4..] == b;
  }

  /** Other consumers' progress never invalidates what a consumer relies on. */
  lemma ProcStable(c: Config, w: World, w': World, q: Proc)
    requires TableInv(c, w) && TableInv(c, w') && Advance(w, w')
    requires ProcInv(c, w, q)
    ensures ProcInv(c, w', q)
  {
    forall org | Tombstoned(w, org) ensures Tombstoned(w', org) {}
    match q
    case Putting(op, _, cur, _, _) =>
      if cur.Some? { BelowIsStrictOrder(cur.value, w.table[OpKey(op)], w'.table[OpKey(op)]); }
    case _ =>
  }

  /** A commit extends the serial log without disturbing it. */
  lemma LogExtends(log: seq<Commit>, e: Commit, ttl: int)
    requires Serial(log, ttl)
    requires e.answer == OpAnswer(Lookup(Replay(log, ttl), OpKey(e.op)), e.op, e.now, ttl)
    ensures Serial(log + [e], ttl)
    ensures Replay(log + [e], ttl) == Atomic(Replay(log, ttl), e.op, e.now, ttl)
  {
    assert (log + [e])[..|log|] == log;
  }

  /** A passing condition on two fields means the record read is the record stored. */
  lemma PutIsAtomic(c: Config, w: World, op: Op, cur: Option<Record>, now: int)
    requires ReadBelow(w.table, OpKey(op), cur)
    requires OpWrite(cur, op, now, c.erasedTTL).Some?
    requires CanPut(Lookup(w.table, OpKey(op)), cur)
    ensures cur == Lookup(w.table, OpKey(op))
    ensures Stored(c, w, op, cur, now) == Committed(c, w, op, now)
  {}

  lemma CommitAdvances(c: Config, w: World, op: Op, now: int)
    ensures Advance(w, Committed(c, w, op, now))
  {}

  /** Taking effect keeps the table explained and only moves records up. */
  lemma CommitKeeps(c: Config, w: World, op: Op, now: int, then_: Then)
    requires TableInv(c, w) && Fits(c, w, op, then_)
    ensures var w' := Committed(c, w, op, now);
            && TableInv(c, w') && Advance(w, w')
            && w'.purged == w.purged && w'.acked == w.acked
  {
    var w' := Committed(c, w, op, now);
    var key := OpKey(op);
    var cur := Lookup(w.table, key);
    CommitAdvances(c, w, op, now);
    forall sub | SubKey(sub) in w'.table ensures Justified(c, w', sub, w'.table[SubKey(sub)]) {
      SubJustified(c, w, op, now, then_, sub);
    }
    forall org | OrgKey(org) in w'.table ensures w'.table[OrgKey(org)].state == Erased {
      OrgErased(c, w, op, now, then_, org);
    }
  }

  lemma SubJustified(c: Config, w: World, op: Op, now: int, then_: Then, sub: string)
    requires TableInv(c, w) && Fits(c, w, op, then_)
    requires SubKey(sub) in Committed(c, w, op, now).table
    ensures Justified(c, Committed(c, w, op, now), sub, Committed(c, w, op, now).table[SubKey(sub)])
  {
    var w' := Committed(c, w, op, now);
    if SubKey(sub) in w.table { assert Justified(c, w, sub, w.table[SubKey(sub)]); }
    if OpKey(op) == SubKey(sub) {
      if op.ApplyOp? {
        KeysApart(sub, op.m.sub);
        if then_.AfterOrg? { KeysApart(sub, Workspaces(then_.m)[then_.i]); }
      } else {
        KeysApart(sub, op.sub);
      }
    }
  }

  lemma OrgErased(c: Config, w: World, op: Op, now: int, then_: Then, org: string)
    requires TableInv(c, w) && Fits(c, w, op, then_)
    requires OrgKey(org) in Committed(c, w, op, now).table
    ensures Committed(c, w, op, now).table[OrgKey(org)].state == Erased
  {
    if OpKey(op) == OrgKey(org) {
      KeysApart(if op.ApplyOp? then op.m.sub else op.sub, org);
    }
  }

  /** Where a consumer lands after its operation took effect. */
  lemma ContinueKeeps(c: Config, w: World, op: Op, now: int, then_: Then)
    requires TableInv(c, w) && Fits(c, w, op, then_)
    ensures var answer := OpAnswer(Lookup(w.table, OpKey(op)), op, now, c.erasedTTL);
            ProcInv(c, Committed(c, w, op, now), Continue(then_, answer))
  {
    var w' := Committed(c, w, op, now);
    CommitKeeps(c, w, op, now, then_);
    ProcStable(c, w, w', Reading(op, 0, then_));
    match then_
    case Finish =>
    case AfterLock(m) => LockAnswered(c, w, op, now, m);
    case AfterOrg(m, i) => OrgAnswered(c, w, op, now, m, i);
    case AfterSub(m) =>
  }

  lemma LockAnswered(c: Config, w: World, op: Op, now: int, m: Message)
    requires TableInv(c, w) && Fits(c, w, op, AfterLock(m))
    ensures var answer := OpAnswer(Lookup(w.table, OpKey(op)), op, now, c.erasedTTL);
            ProcInv(c, Committed(c, w, op, now), Continue(AfterLock(m), answer))
  {}

  lemma OrgAnswered(c: Config, w: World, op: Op, now: int, m: Message, i: nat)
    requires TableInv(c, w) && Fits(c, w, op, AfterOrg(m, i))
    requires Fits(c, Committed(c, w, op, now), op, AfterOrg(m, i))
    ensures ProcInv(c, Committed(c, w, op, now), Tombstone(m, i + 1))
  {
    var w' := Committed(c, w, op, now);
    var org := Workspaces(m)[i];
    assert Tombstoned(w', org) by {
      if OpKey(op) in w.table { assert w.table[OrgKey(org)].state == Erased; }
    }
    assert TombstonedUpTo(w', m, i + 1);
  }

  /** Every step that touches the table or the log is a commit. */
  lemma LogKept(c: Config, s: System, step: Step)
    requires Inv(c, s) && Do(c, s, step).Some?
    ensures LogInv(c, Do(c, s, step).value.w)
  {
    var q := At(s, step.p);
    assert ProcInv(c, s.w, q);
    if step.Read? {
      CommitKeepsLog(c, s.w, q.op, step.now);
    } else if step.Put? && CanPut(Lookup(s.w.table, OpKey(q.op)), q.cur) {
      PutIsAtomic(c, s.w, q.op, q.cur, q.now);
      CommitKeepsLog(c, s.w, q.op, q.now);
    }
  }

  lemma CommitKeepsLog(c: Config, w: World, op: Op, now: int)
    requires LogInv(c, w)
    ensures LogInv(c, Committed(c, w, op, now))
  {
    LogExtends(w.log, Commit(op, now, OpAnswer(Lookup(w.table, OpKey(op)), op, now, c.erasedTTL)), c.erasedTTL);
  }

  lemma StepKeepsInv(c: Config, s: System, step: Step)
    requires Inv(c, s) && Do(c, s, step).Some?
    ensures Inv(c, Do(c, s, step).value)
    ensures Advance(s.w, Do(c, s, step).value.w)
  {
    var s' := Do(c, s, step).value;
    var q := At(s, step.p);
    assert ProcInv(c, s.w, q);
    WorldAndProcKept(c, s, step);
    LogKept(c, s, step);
    forall p | p in s'.procs ensures ProcInv(c, s'.w, s'.procs[p]) {
      if p != step.p { ProcStable(c, s.w, s'.w, s.procs[p]); }
    }
  }

  lemma ReadKept(c: Config, s: System, p: nat, now: int)
    requires Inv(c, s) && Do(c, s, Read(p, now)).Some?
    ensures var s' := Do(c, s, Read(p, now)).value;
            TableInv(c, s'.w) && Advance(s.w, s'.w) && ProcInv(c, s'.w, s'.procs[p])
  {
    var q := At(s, p);
    assert ProcInv(c, s.w, q);
    if OpWrite(Lookup(s.w.table, OpKey(q.op)), q.op, now, c.erasedTTL).None? {
      CommitKeeps(c, s.w, q.op, now, q.then_);
      ContinueKeeps(c, s.w, q.op, now, q.then_);
    }
  }

  lemma PutKept(c: Config, s: System, p: nat)
    requires Inv(c, s) && Do(c, s, Put(p)).Some?
    ensures var s' := Do(c, s, Put(p)).value;
            TableInv(c, s'.w) && Advance(s.w, s'.w) && ProcInv(c, s'.w, s'.procs[p])
  {
    var q := At(s, p);
    assert ProcInv(c, s.w, q);
    if CanPut(Lookup(s.w.table, OpKey(q.op)), q.cur) {
      PutIsAtomic(c, s.w, q.op, q.cur, q.now);
      CommitKeeps(c, s.w, q.op, q.now, q.then_);
      ContinueKeeps(c, s.w, q.op, q.now, q.then_);
    }
  }

  /** Purges finishing never unjustify a record. */
  lemma JustifiedByMore(c: Config, w: World, w': World)
    requires TableInv(c, w)
    requires w' == w.(purged := w'.purged) && w.purged <= w'.purged
    ensures TableInv(c, w') && Advance(w, w')
  {}

  lemma WorldAndProcKept(c: Config, s: System, step: Step)
    requires Inv(c, s) && Do(c, s, step).Some?
    ensures var s' := Do(c, s, step).value;
            TableInv(c, s'.w) && Advance(s.w, s'.w) && ProcInv(c, s'.w, s'.procs[step.p])
  {
    var s' := Do(c, s, step).value;
    var q := At(s, step.p);
    match step
    case Deliver(p, m) =>
    case StartClear(p, sub) =>
    case Read(p, now) => ReadKept(c, s, p, now);
    case Put(p) => PutKept(c, s, p);
    case PurgeReturns(p, result) =>
      assert ProcInv(c, s.w, q);
      if result == Done { JustifiedByMore(c, s.w, s'.w); }
    case Send(p) =>
      assert ProcInv(c, s.w, q);
    case Fail(p) =>
  }

  // ---- Theorems over whole runs ---------------------------------------------

  lemma {:induction false} RunKeepsInv(c: Config, steps: seq<Step>)
    requires Run(c, steps).Some?
    ensures Inv(c, Run(c, steps).value)
  {
    if steps != [] {
      RunKeepsInv(c, steps[..|steps| - 1]);
      StepKeepsInv(c, Run(c, steps[..|steps| - 1]).value, steps[|steps| - 1]);
    }
  }

  /**
   Any interleaving of Apply, Clear and Relink equals a serial order of the
   operations that took effect: replaying them one at a time gives the table,
   and each reported what it would have reported alone.
   */
  lemma RunsAreSerializable(c: Config, steps: seq<Step>)
    requires Run(c, steps).Some?
    ensures var w := Run(c, steps).value.w; w.table == Replay(w.log, c.erasedTTL) && Serial(w.log, c.erasedTTL)
  {
    RunKeepsInv(c, steps);
  }

  /** Records only ever move up the order, so no (seq_ns, state) pair comes back. */
  lemma {:induction false} RecordsClimb(c: Config, steps: seq<Step>, n: nat, key: string)
    requires n <= |steps| && Run(c, steps).Some? && Run(c, steps[..n]).Some?
    requires key in Run(c, steps[..n]).value.w.table
    ensures key in Run(c, steps).value.w.table
    ensures NotAfter(Run(c, steps[..n]).value.w.table[key], Run(c, steps).value.w.table[key])
    decreases |steps| - n
  {
    if n == |steps| {
      assert steps[..n] == steps;
    } else {
      var init := steps[..|steps| - 1];
      assert init[..n] == steps[..n];
      RecordsClimb(c, init, n, key);
      RunKeepsInv(c, init);
      StepKeepsInv(c, Run(c, init).value, steps[|steps| - 1]);
      BelowIsStrictOrder(Run(c, steps[..n]).value.w.table[key], Run(c, init).value.w.table[key],
        Run(c, steps).value.w.table[key]);
    }
  }

  /** The user is active again as of the erase, or later. */
  predicate Returned(w: World, m: Message) {
    && SubKey(m.sub) in w.table
    && w.table[SubKey(m.sub)].state == Active && m.issuedAt <= w.table[SubKey(m.sub)].seqNS
  }

  predicate UserErased(w: World, e: Message) {
    SubKey(e.sub) in w.table && w.table[SubKey(e.sub)].state == Erased
  }

  /**
   Nothing escapes the log: the table changes only with a commit, and an
   operation that answers its consumer is committed at that very step, with that answer.
   */
  lemma AnswersAreCommitted(c: Config, s: System, step: Step)
    requires Inv(c, s) && Do(c, s, step).Some?
    ensures var s', q := Do(c, s, step).value, At(s, step.p);
            && (s'.w.log == s.w.log ==> s'.w.table == s.w.table)
            && (s'.w.log != s.w.log ==>
                  && (q.Reading? || q.Putting?)
                  && |s'.w.log| == |s.w.log| + 1 && s.w.log <= s'.w.log
                  && s'.w.log[|s.w.log|].op == q.op
                  && At(s', step.p) == Continue(q.then_, s'.w.log[|s.w.log|].answer))
            && (At(s', step.p).Purging? || At(s', step.p).Acking? ==>
                  s'.w.log != s.w.log || q.Purging? || At(s', step.p) == q)
  {}

  /**
   A purge begins only at a moment when the store holds the user as locked or
   erased, never for an erase the user has returned since.
   */
  lemma PurgeStartsBlocked(c: Config, steps: seq<Step>, step: Step)
    requires Run(c, steps).Some? && Do(c, Run(c, steps).value, step).Some?
    ensures var s, s' := Run(c, steps).value, Do(c, Run(c, steps).value, step).value;
            var q' := At(s', step.p);
            q'.Purging? && !At(s, step.p).Purging? ==>
              && SubKey(q'.m.sub) in s'.w.table
              && s'.w.table[SubKey(q'.m.sub)].state != Active
              && !Returned(s.w, q'.m)
  {
    var s := Run(c, steps).value;
    RunKeepsInv(c, steps);
    var q := At(s, step.p);
    assert ProcInv(c, s.w, q);
    if step.Put? && q.Putting? && CanPut(Lookup(s.w.table, OpKey(q.op)), q.cur) {
      PutIsAtomic(c, s.w, q.op, q.cur, q.now);
    }
  }

  /** When the purge path has acked done, every workspace of the message is a tombstone, for good. */
  lemma AckedWorkspacesAreTombstones(c: Config, steps: seq<Step>, m: Message, org: string)
    requires Run(c, steps).Some?
    requires (m, true) in Run(c, steps).value.w.acked
    requires org in m.organizations || org in m.workspaces
    ensures Tombstoned(Run(c, steps).value.w, org)
  {
    RunKeepsInv(c, steps);
    WorkspacesExact(m.organizations, m.workspaces);
    var w := Run(c, steps).value.w;
    assert org in Workspaces(m);
    var i :| 0 <= i < |Workspaces(m)| && Workspaces(m)[i] == org;
    assert Tombstoned(w, Workspaces(m)[i]);
  }

  /** An ack "done" is only ever sent for a request whose purge had returned done. */
  ghost predicate AcksAreEarned(w: World) {
    forall a :: a in w.acked ==> (a.0.sub, a.0.requestId) in w.purged
  }

  /** No unlock on the queue masks an erase of its own request. */
  ghost predicate NoMask(c: Config) { forall e :: EraseIn(c, e) ==> !Masked(c, e) }

  lemma EarnedWithoutMasks(c: Config, steps: seq<Step>)
    requires NoMask(c) && Run(c, steps).Some?
    ensures AcksAreEarned(Run(c, steps).value.w)
  {
    RunKeepsInv(c, steps);
  }

  /** With a masking pair, delivering the unlock and then the erase acks a purge that never ran. */
  function Masking(u: Message, e: Message): seq<Step> {
    [Deliver(0, u), Read(0, 0), Put(0), Deliver(0, e), Read(0, 0), Send(0)]
  }

  lemma MaskingAcksUnearned(c: Config, u: Message, e: Message)
    requires Queued(c, u) && EraseIn(c, e) && Masks(u, e)
    ensures Run(c, Masking(u, e)).Some?
    ensures !AcksAreEarned(Run(c, Masking(u, e)).value.w)
  {
    var st := Masking(u, e);
    var s0 := START;
    var s1 := Do(c, s0, st[0]).value;
    var s2 := Do(c, s1, st[1]).value;
    var s3 := Do(c, s2, st[2]).value;
    var s4 := Do(c, s3, st[3]).value;
    var s5 := Do(c, s4, st[4]).value;
    var s6 := Do(c, s5, st[5]).value;
    assert s3.w.table[SubKey(e.sub)].state == Active;
    assert At(s5, 0) == Acking(e, Done, false);
    assert (e, false) in s6.w.acked && s6.w.purged == {};
    RunUnfolds(c, st, [s0, s1, s2, s3, s4, s5, s6]);
  }

  lemma {:induction false} RunUnfolds(c: Config, steps: seq<Step>, states: seq<System>)
    requires |states| == |steps| + 1 && states[0] == START
    requires forall i :: 0 <= i < |steps| ==> Do(c, states[i], steps[i]) == Some(states[i + 1])
    ensures Run(c, steps) == Some(states[|steps|])
  {
    if steps != [] {
      RunUnfolds(c, steps[..|steps| - 1], states[..|steps|]);
    }
  }

  /**
   The ack-after-purge law holds for every run of a queue exactly when no
   unlock on it masks an erase carrying the same request id.
   */
  lemma AcksEarnedIffNoMask(c: Config)
    ensures NoMask(c) <==> forall steps :: Run(c, steps).Some? ==> AcksAreEarned(Run(c, steps).value.w)
  {
    if NoMask(c) {
      forall steps | Run(c, steps).Some? ensures AcksAreEarned(Run(c, steps).value.w) {
        EarnedWithoutMasks(c, steps);
      }
    } else {
      var e :| EraseIn(c, e) && Masked(c, e);
      var u :| Queued(c, u) && Masks(u, e);
      MaskingAcksUnearned(c, u, e);
    }
  }
}
