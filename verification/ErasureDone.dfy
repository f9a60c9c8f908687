/**
 Whether "done" means the user is erased (erasure/consumer.go, the end of
 handle). The last Apply of an erase leaves a record alone that became active
 again in the meantime, reports no error, and the ack goes out all the same.
 Which messages on the queue make that possible is settled here exactly; a call
 of Clear by the application always does.
 */
module ErasureDone {
  import opened Options
  import opened Erasure
  import opened ErasureRun

  // ---- At the moment of the last write ------------------------------------------

  /** This step ends the tombstones of `e`: what is left is the ack "done". */
  predicate Completes(s: System, s': System, p: nat, e: Message) {
    At(s', p) == Acking(e, Done, true) && At(s, p) != At(s', p)
  }

  /**
   When the purge path is about to ack done, the user is erased exactly if the
   record had not become active again, as of the erase or later.
   */
  lemma ErasedUnlessReturned(c: Config, steps: seq<Step>, step: Step, e: Message)
    requires Run(c, steps).Some? && Do(c, Run(c, steps).value, step).Some?
    requires Completes(Run(c, steps).value, Do(c, Run(c, steps).value, step).value, step.p, e)
    ensures UserErased(Do(c, Run(c, steps).value, step).value.w, e) <==> !Returned(Run(c, steps).value.w, e)
  {
    var s := Run(c, steps).value;
    RunKeepsInv(c, steps);
    CompletesErased(c, s, step, e);
  }

  lemma CompletesErased(c: Config, s: System, step: Step, e: Message)
    requires Inv(c, s) && Do(c, s, step).Some? && Completes(s, Do(c, s, step).value, step.p, e)
    ensures UserErased(Do(c, s, step).value.w, e) <==> !Returned(s.w, e)
    ensures (At(s, step.p).Reading? || At(s, step.p).Putting?) && At(s, step.p).then_ == AfterSub(e)
  {
    var q := At(s, step.p);
    assert ProcInv(c, s.w, q);
    if step.Put? && q.Putting? && CanPut(Lookup(s.w.table, OpKey(q.op)), q.cur) {
      PutIsAtomic(c, s.w, q.op, q.cur, q.now);
    }
  }

  // ---- Which messages can bring the user back meanwhile ----------------------------

  /** A message for the user that locks: user.locked, or the lock an erase begins with. */
  predicate LocksFor(c: Config, l: Message, sub: string) {
    Queued(c, l) && l.sub == sub && l.kind in {LockMsg, EraseMsg} && l.issuedAt > 0
  }

  predicate UnlocksFor(c: Config, u: Message, sub: string) { Queued(c, u) && u.sub == sub && u.kind == UnlockMsg }

  predicate RelinksFor(c: Config, r: Message, sub: string) { Queued(c, r) && r.sub == sub && r.kind == RelinkMsg }

  predicate ErasesFor(c: Config, e: Message, sub: string) { EraseIn(c, e) && e.sub == sub }

  /** An unlock newer than a lock that is itself no older than the erase. */
  ghost predicate UnlockedOver(c: Config, e: Message) {
    exists l, u :: LocksFor(c, l, e.sub) && UnlocksFor(c, u, e.sub) && e.issuedAt <= l.issuedAt < u.issuedAt
  }

  /** The user was erased by `e'` on top of the lock `l`, and came back by `r`. */
  predicate CameBack(c: Config, sub: string, l: Message, e': Message, r: Message) {
    LocksFor(c, l, sub) && ErasesFor(c, e', sub) && RelinksFor(c, r, sub) && e'.issuedAt <= l.issuedAt < r.issuedAt
  }

  ghost predicate Relinked(c: Config, sub: string) { exists l, e', r :: CameBack(c, sub, l, e', r) }

  ghost predicate Reopened(c: Config, e: Message) { UnlockedOver(c, e) || Relinked(c, e.sub) }

  // ---- Without them, the user stays erased --------------------------------------------

  predicate ClearFree(steps: seq<Step>) { forall i :: 0 <= i < |steps| ==> !steps[i].StartClear? }

  /** Where a locked or erased record comes from. */
  ghost predicate Sourced(c: Config, sub: string, r: Record) {
    && r.seqNS >= 0
    && (r.state != Active ==> exists l :: LocksFor(c, l, sub) && l.issuedAt == r.seqNS)
    && (r.state == Erased ==> exists e :: ErasesFor(c, e, sub) && e.issuedAt <= r.seqNS)
  }

  /** The erase whose purge a consumer is in, or has behind it. */
  function Purges(q: Proc): Option<Message> {
    match q
    case Purging(m) => Some(m)
    case Reading(_, _, AfterOrg(m, _)) => Some(m)
    case Reading(_, _, AfterSub(m)) => Some(m)
    case Putting(_, _, _, _, AfterOrg(m, _)) => Some(m)
    case Putting(_, _, _, _, AfterSub(m)) => Some(m)
    case _ => None
  }

  /** The user's record while the purge of `e` is under way: an Apply of `e` would leave it erased. */
  ghost predicate Meanwhile(c: Config, e: Message, r: Record) {
    r.state == Erased || (r.state == Locked && e.issuedAt <= r.seqNS) || Reopened(c, e)
  }

  /** The user's record from the last Apply of `e` until its ack is sent. */
  ghost predicate Closed(c: Config, e: Message, r: Record) { r.state == Erased || Reopened(c, e) }

  ghost predicate OpQueued(c: Config, op: Op) {
    match op
    case ApplyOp(_, _) => true
    case ClearOp(_) => false
    case RelinkOp(sub, at) => exists r :: RelinksFor(c, r, sub) && r.issuedAt == at
  }

  ghost predicate ProcOk(c: Config, t: Table, q: Proc) {
    && (q.Reading? || q.Putting? ==> OpQueued(c, q.op))
    && (Purges(q).Some? ==>
          var e := Purges(q).value;
          SubKey(e.sub) in t && Meanwhile(c, e, t[SubKey(e.sub)]))
    && (AcksDone(q) ==> SubKey(q.m.sub) in t && Closed(c, q.m, t[SubKey(q.m.sub)]))
  }

  /** The purge path has the ack "done" left to send. */
  predicate AcksDone(q: Proc) { q.Acking? && q.result == Done && q.purgedHere }

  ghost predicate TableOk(c: Config, t: Table) {
    forall sub {:trigger SubKey(sub)} :: SubKey(sub) in t ==> Sourced(c, sub, t[SubKey(sub)])
  }

  ghost predicate Ok(c: Config, s: System) {
    TableOk(c, s.w.table) && forall p :: p in s.procs ==> ProcOk(c, s.w.table, s.procs[p])
  }

  /** Where `cur` was in order for a purge or an ack of `e` under way, so is `r`. */
  ghost predicate Explained(c: Config, e: Message, cur: Record, r: Record) {
    (Meanwhile(c, e, cur) ==> Meanwhile(c, e, r)) && (Closed(c, e, cur) ==> Closed(c, e, r))
  }

  /** One operation on the user's record keeps it sourced, and every purge under way explained. */
  lemma WriteKeeps(c: Config, op: Op, then_: Then, w: World, now: int, sub: string)
    requires Fits(c, w, op, then_) && OpQueued(c, op)
    requires OpKey(op) == SubKey(sub) && OpWrite(Lookup(w.table, SubKey(sub)), op, now, c.erasedTTL).Some?
    requires SubKey(sub) in w.table ==> Sourced(c, sub, w.table[SubKey(sub)])
    requires then_.AfterSub? ==> SubKey(sub) in w.table
    ensures var r := OpWrite(Lookup(w.table, SubKey(sub)), op, now, c.erasedTTL).value;
            && Sourced(c, sub, r)
            && (SubKey(sub) in w.table ==>
                  forall e :: ErasesFor(c, e, sub) ==> Explained(c, e, w.table[SubKey(sub)], r))
  {
    var cur := Lookup(w.table, SubKey(sub));
    var r := OpWrite(cur, op, now, c.erasedTTL).value;
    WriterIs(c, op, then_, w, sub);
    WriteSourced(c, op, then_, w, now, sub);
    if cur.Some? {
      forall e | ErasesFor(c, e, sub) ensures Explained(c, e, cur.value, r) {
        if r.state == Active && Meanwhile(c, e, cur.value) { BackMeanwhile(c, op, w, now, sub, e); }
      }
    }
  }

  lemma WriterIs(c: Config, op: Op, then_: Then, w: World, sub: string)
    requires Fits(c, w, op, then_) && OpKey(op) == SubKey(sub)
    ensures op.ApplyOp? ==>
              && op.m.sub == sub
              && (op.m.kind == UnlockMsg ==> UnlocksFor(c, op.m, sub))
              && (op.m.kind == EraseMsg ==> then_ == AfterSub(op.m) && ErasesFor(c, op.m, sub))
              && (op.m.kind == LockMsg ==>
                   exists l :: Queued(c, l) && l.sub == sub && l.kind in {LockMsg, EraseMsg} &&
                     l.issuedAt == op.m.issuedAt)
    ensures op.RelinkOp? ==> op.sub == sub
  {
    if op.ApplyOp? {
      KeysApart(sub, op.m.sub);
      if then_.AfterOrg? { KeysApart(sub, Workspaces(then_.m)[then_.i]); }
      if then_.AfterLock? { assert Queued(c, then_.m); }
    } else {
      KeysApart(sub, op.sub);
    }
  }

  lemma WriteSourced(c: Config, op: Op, then_: Then, w: World, now: int, sub: string)
    requires Fits(c, w, op, then_) && OpQueued(c, op)
    requires OpKey(op) == SubKey(sub) && OpWrite(Lookup(w.table, SubKey(sub)), op, now, c.erasedTTL).Some?
    requires SubKey(sub) in w.table ==> Sourced(c, sub, w.table[SubKey(sub)])
    requires then_.AfterSub? ==> SubKey(sub) in w.table
    ensures Sourced(c, sub, OpWrite(Lookup(w.table, SubKey(sub)), op, now, c.erasedTTL).value)
  {
    WriterIs(c, op, then_, w, sub);
    var r := OpWrite(Lookup(w.table, SubKey(sub)), op, now, c.erasedTTL).value;
    if r.state == Locked {
      var l :| Queued(c, l) && l.sub == sub && l.kind in {LockMsg, EraseMsg} && l.issuedAt == op.m.issuedAt;
      assert LocksFor(c, l, sub);
    } else if r.state == Erased {
      assert ErasesFor(c, op.m, sub);
      var cur := w.table[SubKey(sub)];
      if cur.seqNS < op.m.issuedAt { assert LocksFor(c, op.m, sub); }
    }
  }

  /** A record made active while a purge is under way. */
  lemma BackMeanwhile(c: Config, op: Op, w: World, now: int, sub: string, e: Message)
    requires OpKey(op) == SubKey(sub) && SubKey(sub) in w.table && Sourced(c, sub, w.table[SubKey(sub)])
    requires OpQueued(c, op) && ErasesFor(c, e, sub) && Meanwhile(c, e, w.table[SubKey(sub)])
    requires OpWrite(Some(w.table[SubKey(sub)]), op, now, c.erasedTTL).Some?
    requires OpWrite(Some(w.table[SubKey(sub)]), op, now, c.erasedTTL).value.state == Active
    requires op.ApplyOp? ==> op.m.sub == sub && (op.m.kind == UnlockMsg ==> UnlocksFor(c, op.m, sub))
    requires op.RelinkOp? ==> op.sub == sub
    ensures Reopened(c, e)
  {
    var cur := w.table[SubKey(sub)];
    if op.ApplyOp? {
      if cur.state == Locked && cur.seqNS >= e.issuedAt {
        var l :| LocksFor(c, l, sub) && l.issuedAt == cur.seqNS;
        assert UnlocksFor(c, op.m, sub);
        assert UnlockedOver(c, e);
      }
    } else {
      var l :| LocksFor(c, l, sub) && l.issuedAt == cur.seqNS;
      var e' :| ErasesFor(c, e', sub) && e'.issuedAt <= cur.seqNS;
      var r :| RelinksFor(c, r, sub) && r.issuedAt == op.issuedAt;
      assert CameBack(c, sub, l, e', r);
    }
  }

  /** The table changes only by a put, which writes what the operation makes of the record as it stands. */
  lemma PutWrites(c: Config, s: System, step: Step)
    requires Inv(c, s) && Do(c, s, step).Some?
    requires Do(c, s, step).value.w.table != s.w.table
    ensures var q := At(s, step.p);
            && step.Put? && q.Putting? && Fits(c, s.w, q.op, q.then_)
            && OpWrite(Lookup(s.w.table, OpKey(q.op)), q.op, q.now, c.erasedTTL).Some?
            && Do(c, s, step).value.w.table ==
                 s.w.table[OpKey(q.op) := OpWrite(Lookup(s.w.table, OpKey(q.op)), q.op, q.now, c.erasedTTL).value]
  {
    var q := At(s, step.p);
    assert ProcInv(c, s.w, q);
    if step.Put? { PutIsAtomic(c, s.w, q.op, q.cur, q.now); }
  }

  lemma RecordsKept(c: Config, s: System, step: Step, sub: string)
    requires Inv(c, s) && Ok(c, s) && Do(c, s, step).Some?
    requires SubKey(sub) in Do(c, s, step).value.w.table
    ensures var r := Do(c, s, step).value.w.table[SubKey(sub)];
            && Sourced(c, sub, r)
            && (SubKey(sub) in s.w.table ==>
                  forall e :: ErasesFor(c, e, sub) ==> Explained(c, e, s.w.table[SubKey(sub)], r))
  {
    var s', q := Do(c, s, step).value, At(s, step.p);
    if SubKey(sub) in s.w.table { assert Sourced(c, sub, s.w.table[SubKey(sub)]); }
    if s'.w.table != s.w.table {
      PutWrites(c, s, step);
      assert ProcOk(c, s.w.table, q);
      if OpKey(q.op) == SubKey(sub) {
        if q.then_.AfterSub? { KeysApart(sub, q.then_.m.sub); }
        WriteKeeps(c, q.op, q.then_, s.w, q.now, sub);
      }
    }
  }

  /** Whatever operation a consumer starts, it is no Clear, and a relink was on the queue. */
  lemma OpsAreQueued(c: Config, s: System, step: Step)
    requires Ok(c, s) && Do(c, s, step).Some? && !step.StartClear?
    ensures var q' := Do(c, s, step).value.procs[step.p]; q'.Reading? || q'.Putting? ==> OpQueued(c, q'.op)
  {
    assert ProcOk(c, s.w.table, At(s, step.p));
    if step.Deliver? && step.m.kind == RelinkMsg { assert RelinksFor(c, step.m, step.m.sub); }
  }

  /** A consumer's own step: it enters a purge only over a locked or erased record, and stays with its erase. */
  lemma OwnProcKept(c: Config, s: System, step: Step)
    requires Inv(c, s) && Ok(c, s) && Do(c, s, step).Some? && !step.StartClear?
    ensures ProcOk(c, Do(c, s, step).value.w.table, Do(c, s, step).value.procs[step.p])
  {
    var s', q := Do(c, s, step).value, At(s, step.p);
    OpsAreQueued(c, s, step);
    var q' := s'.procs[step.p];
    if AcksDone(q') { EntersAck(c, s, step, q'.m); }
    if Purges(q').Some? {
      var e := Purges(q').value;
      if Purges(q) == Some(e) {
        assert ProcOk(c, s.w.table, q);
        OwnRecordKept(c, s, step, e);
      } else {
        EntersPurge(c, s, step, e);
      }
    }
  }

  /** The last Apply of an erase leaves the user erased, unless something on the queue brought them back. */
  lemma EntersAck(c: Config, s: System, step: Step, e: Message)
    requires Inv(c, s) && Ok(c, s) && Do(c, s, step).Some?
    requires At(Do(c, s, step).value, step.p) == Acking(e, Done, true)
    ensures SubKey(e.sub) in Do(c, s, step).value.w.table
    ensures Closed(c, e, Do(c, s, step).value.w.table[SubKey(e.sub)])
  {
    CompletesErased(c, s, step, e);
    assert ProcOk(c, s.w.table, At(s, step.p));
    StepKeepsInv(c, s, step);
  }

  lemma OwnRecordKept(c: Config, s: System, step: Step, e: Message)
    requires Inv(c, s) && Ok(c, s) && Do(c, s, step).Some?
    requires Purges(At(s, step.p)) == Some(e)
    ensures SubKey(e.sub) in Do(c, s, step).value.w.table
    ensures Meanwhile(c, e, Do(c, s, step).value.w.table[SubKey(e.sub)])
  {
    assert ProcInv(c, s.w, At(s, step.p)) && ProcOk(c, s.w.table, At(s, step.p));
    StepKeepsInv(c, s, step);
    assert ErasesFor(c, e, e.sub);
    RecordsKept(c, s, step, e.sub);
  }

  /** A lock that does not find the user active leaves a record no purge needs explained. */
  lemma LockedOrErased(c: Config, w: World, e: Message, now: int)
    requires var key := SubKey(e.sub);
             OpAnswer(Lookup(w.table, key), ApplyOp(key, e.(kind := LockMsg)), now, c.erasedTTL).state != Active
    ensures var t := Atomic(w.table, ApplyOp(SubKey(e.sub), e.(kind := LockMsg)), now, c.erasedTTL);
            SubKey(e.sub) in t && Meanwhile(c, e, t[SubKey(e.sub)])
  {}

  lemma EntersAfterLock(c: Config, s: System, step: Step, e: Message)
    requires Inv(c, s) && Do(c, s, step).Some?
    requires Purges(Do(c, s, step).value.procs[step.p]) == Some(e) && Purges(At(s, step.p)) != Some(e)
    ensures var q := At(s, step.p);
            && ((step.Read? && q.Reading?) || (step.Put? && q.Putting?))
            && q.then_ == AfterLock(e) && q.op == ApplyOp(SubKey(e.sub), e.(kind := LockMsg))
  {
    assert ProcInv(c, s.w, At(s, step.p));
  }

  lemma EntersPurge(c: Config, s: System, step: Step, e: Message)
    requires Inv(c, s) && Do(c, s, step).Some?
    requires Purges(Do(c, s, step).value.procs[step.p]) == Some(e) && Purges(At(s, step.p)) != Some(e)
    ensures SubKey(e.sub) in Do(c, s, step).value.w.table
    ensures Meanwhile(c, e, Do(c, s, step).value.w.table[SubKey(e.sub)])
  {
    var q := At(s, step.p);
    EntersAfterLock(c, s, step, e);
    if step.Put? {
      assert ProcInv(c, s.w, q);
      PutIsAtomic(c, s.w, q.op, q.cur, q.now);
      LockedOrErased(c, s.w, e, q.now);
    } else {
      LockedOrErased(c, s.w, e, step.now);
    }
  }

  lemma OtherProcKept(c: Config, s: System, step: Step, p: nat)
    requires Inv(c, s) && Ok(c, s) && Do(c, s, step).Some? && p in s.procs
    ensures ProcOk(c, Do(c, s, step).value.w.table, s.procs[p])
  {
    assert ProcOk(c, s.w.table, s.procs[p]) && ProcInv(c, s.w, s.procs[p]);
    if Purges(s.procs[p]).Some? {
      var e := Purges(s.procs[p]).value;
      assert ErasesFor(c, e, e.sub);
      StepKeepsInv(c, s, step);
      RecordsKept(c, s, step, e.sub);
    }
    if AcksDone(s.procs[p]) {
      assert ErasesFor(c, s.procs[p].m, s.procs[p].m.sub);
      StepKeepsInv(c, s, step);
      RecordsKept(c, s, step, s.procs[p].m.sub);
    }
  }

  lemma StepKeepsOk(c: Config, s: System, step: Step)
    requires Inv(c, s) && Ok(c, s) && Do(c, s, step).Some? && !step.StartClear?
    ensures Ok(c, Do(c, s, step).value)
  {
    var s' := Do(c, s, step).value;
    forall sub | SubKey(sub) in s'.w.table ensures Sourced(c, sub, s'.w.table[SubKey(sub)]) {
      RecordsKept(c, s, step, sub);
    }
    forall p | p in s'.procs ensures ProcOk(c, s'.w.table, s'.procs[p]) {
      if p == step.p {
        OwnProcKept(c, s, step);
      } else {
        OtherProcKept(c, s, step, p);
      }
    }
  }

  lemma {:induction false} RunKeepsOk(c: Config, steps: seq<Step>)
    requires Run(c, steps).Some? && ClearFree(steps)
    ensures Ok(c, Run(c, steps).value)
  {
    if steps != [] {
      RunKeepsInv(c, steps[..|steps| - 1]);
      RunKeepsOk(c, steps[..|steps| - 1]);
      StepKeepsOk(c, Run(c, steps[..|steps| - 1]).value, steps[|steps| - 1]);
    }
  }

  /** The run's last step sends the ack "done" of the purge path for `e`, at a moment when the user is not erased. */
  predicate DoneNotErased(c: Config, steps: seq<Step>, e: Message) {
    && steps != [] && Run(c, steps).Some? && steps[|steps| - 1].Send?
    && At(Run(c, steps[..|steps| - 1]).value, steps[|steps| - 1].p) == Acking(e, Done, true)
    && !UserErased(Run(c, steps[..|steps| - 1]).value.w, e)
  }

  lemma NotErasedMeansReopened(c: Config, steps: seq<Step>, e: Message)
    requires ClearFree(steps) && DoneNotErased(c, steps, e)
    ensures Reopened(c, e) && (e, true) in Run(c, steps).value.w.acked
  {
    var init, step := steps[..|steps| - 1], steps[|steps| - 1];
    RunKeepsInv(c, init);
    RunKeepsOk(c, init);
    assert ProcOk(c, Run(c, init).value.w.table, At(Run(c, init).value, step.p));
  }

  // ---- With them, some run acks done for a user who is back ------------------------------

  /** A run leads there, without Clear unless `clear` allows it. */
  predicate Reaches(c: Config, steps: seq<Step>, s: System, clear: bool) {
    Run(c, steps) == Some(s) && (clear || ClearFree(steps))
  }

  lemma OneStep(c: Config, steps: seq<Step>, s: System, clear: bool, step: Step) returns (steps': seq<Step>, s': System)
    requires Reaches(c, steps, s, clear) && Do(c, s, step).Some? && (clear || !step.StartClear?)
    ensures steps' == steps + [step] && Some(s') == Do(c, s, step) && Reaches(c, steps', s', clear)
  {
    steps', s' := steps + [step], Do(c, s, step).value;
    assert steps'[..|steps|] == steps;
  }

  function UserRecord(s: System, sub: string): Option<Record> { Lookup(s.w.table, SubKey(sub)) }

  /** Consumer 1 is handed a message and gets as far as its first write. */
  lemma Serve(c: Config, steps: seq<Step>, s: System, clear: bool, m: Message) returns (steps': seq<Step>, s': System)
    requires Reaches(c, steps, s, clear) && At(s, 1).Idle? && Queued(c, m)
    requires OpWrite(UserRecord(s, m.sub), Handle(m).op, 0, c.erasedTTL).Some?
    ensures Reaches(c, steps', s', clear) && At(s', 1).Idle? && At(s', 0) == At(s, 0)
    ensures UserRecord(s', m.sub) == OpWrite(UserRecord(s, m.sub), Handle(m).op, 0, c.erasedTTL)
  {
    steps', s' := OneStep(c, steps, s, clear, Deliver(1, m));
    steps', s' := OneStep(c, steps', s', clear, Read(1, 0));
    steps', s' := OneStep(c, steps', s', clear, Put(1));
    steps', s' := OneStep(c, steps', s', clear, Fail(1));
  }

  /** A consumer handed an erase the record already covers goes straight to its purge. */
  lemma BeginPurge(c: Config, steps: seq<Step>, s: System, clear: bool, p: nat, e: Message)
    returns (steps': seq<Step>, s': System)
    requires Reaches(c, steps, s, clear) && At(s, p).Idle? && EraseIn(c, e) && p < 2
    requires UserRecord(s, e.sub).Some?
    requires var r := UserRecord(s, e.sub).value; r.state == Erased || (r.state == Locked && e.issuedAt <= r.seqNS)
    ensures Reaches(c, steps', s', clear) && At(s', p) == Purging(e) && At(s', 1 - p) == At(s, 1 - p)
    ensures UserRecord(s', e.sub) == UserRecord(s, e.sub)
  {
    steps', s' := OneStep(c, steps, s, clear, Deliver(p, e));
    steps', s' := OneStep(c, steps', s', clear, Read(p, 0));
  }

  lemma OrgsAreErased(c: Config, steps: seq<Step>, s: System, clear: bool, org: string)
    requires Reaches(c, steps, s, clear) && OrgKey(org) in s.w.table
    ensures s.w.table[OrgKey(org)].state == Erased
  {
    RunKeepsInv(c, steps);
  }

  lemma TombstoneOne(c: Config, steps: seq<Step>, s: System, clear: bool, p: nat, e: Message, i: nat)
    returns (steps': seq<Step>, s': System)
    requires Reaches(c, steps, s, clear) && p < 2 && i < |Workspaces(e)| && At(s, p) == Tombstone(e, i) &&
              e.kind == EraseMsg
    ensures Reaches(c, steps', s', clear) && At(s', p) == Tombstone(e, i + 1) && At(s', 1 - p) == At(s, 1 - p)
    ensures UserRecord(s', e.sub) == UserRecord(s, e.sub)
  {
    var org := Workspaces(e)[i];
    KeysApart(e.sub, org);
    if OrgKey(org) in s.w.table { OrgsAreErased(c, steps, s, clear, org); }
    steps', s' := OneStep(c, steps, s, clear, Read(p, 0));
    if OrgKey(org) !in s.w.table { steps', s' := OneStep(c, steps', s', clear, Put(p)); }
  }

  lemma {:induction false} TombstoneAll(c: Config, steps: seq<Step>, s: System, clear: bool, p: nat, e: Message, i: nat)
    returns (steps': seq<Step>, s': System)
    requires Reaches(c, steps, s, clear) && p < 2 && i <= |Workspaces(e)| && At(s, p) == Tombstone(e, i) &&
              e.kind == EraseMsg
    ensures Reaches(c, steps', s', clear) && At(s', p) == Tombstone(e, |Workspaces(e)|) && At(s', 1 - p) == At(s, 1 - p)
    ensures UserRecord(s', e.sub) == UserRecord(s, e.sub)
    decreases |Workspaces(e)| - i
  {
    steps', s' := steps, s;
    if i < |Workspaces(e)| {
      steps', s' := TombstoneOne(c, steps, s, clear, p, e, i);
      steps', s' := TombstoneAll(c, steps', s', clear, p, e, i + 1);
    }
  }

  /** The purge returns done and every workspace is a tombstone; the user is next. */
  lemma EndPurge(c: Config, steps: seq<Step>, s: System, clear: bool, p: nat, e: Message)
    returns (steps': seq<Step>, s': System)
    requires Reaches(c, steps, s, clear) && p < 2 && At(s, p) == Purging(e) && e.kind == EraseMsg
    ensures Reaches(c, steps', s', clear) && At(s', p) == Tombstone(e, |Workspaces(e)|) && At(s', 1 - p) == At(s, 1 - p)
    ensures UserRecord(s', e.sub) == UserRecord(s, e.sub)
  {
    steps', s' := OneStep(c, steps, s, clear, PurgeReturns(p, Done));
    steps', s' := TombstoneAll(c, steps', s', clear, p, e, 0);
  }

  /** The user's own Apply writes nothing over a record that is erased, or active as of the erase. */
  lemma BeginAck(c: Config, steps: seq<Step>, s: System, clear: bool, e: Message)
    returns (steps': seq<Step>, s': System)
    requires Reaches(c, steps, s, clear) && At(s, 0) == Purging(e) && e.kind == EraseMsg
    requires UserErased(s.w, e) || Returned(s.w, e)
    ensures Reaches(c, steps', s', clear) && At(s', 0) == Acking(e, Done, true) && At(s', 1) == At(s, 1)
    ensures UserRecord(s', e.sub) == UserRecord(s, e.sub)
  {
    steps', s' := EndPurge(c, steps, s, clear, 0, e);
    steps', s' := OneStep(c, steps', s', clear, Read(0, 0));
  }

  /** The ack goes out whatever became of the user. */
  lemma AckAnyway(c: Config, steps: seq<Step>, s: System, clear: bool, e: Message) returns (steps': seq<Step>)
    requires Reaches(c, steps, s, clear) && At(s, 0) == Acking(e, Done, true) && !UserErased(s.w, e)
    ensures (clear || ClearFree(steps')) && DoneNotErased(c, steps', e)
  {
    var s';
    steps', s' := OneStep(c, steps, s, clear, Send(0));
    assert steps'[..|steps'| - 1] == steps;
  }

  lemma UnlockReopens(c: Config, e: Message, l: Message, u: Message) returns (steps: seq<Step>)
    requires EraseIn(c, e) && LocksFor(c, l, e.sub) && UnlocksFor(c, u, e.sub) && e.issuedAt <= l.issuedAt < u.issuedAt
    ensures ClearFree(steps) && DoneNotErased(c, steps, e)
  {
    var s;
    steps, s := Serve(c, [], START, false, l);
    steps, s := BeginPurge(c, steps, s, false, 0, e);
    steps, s := Serve(c, steps, s, false, u);
    steps, s := BeginAck(c, steps, s, false, e);
    steps := AckAnyway(c, steps, s, false, e);
  }

  /** Erased by `e'`, which consumer 1 handles from end to end. */
  lemma EraseFirst(c: Config, e': Message, l: Message, clear: bool) returns (steps: seq<Step>, s: System)
    requires ErasesFor(c, e', l.sub) && LocksFor(c, l, l.sub) && e'.issuedAt <= l.issuedAt
    ensures Reaches(c, steps, s, clear) && At(s, 0).Idle? && At(s, 1).Idle?
    ensures UserRecord(s, l.sub).Some? && UserRecord(s, l.sub).value.state == Erased &&
              UserRecord(s, l.sub).value.seqNS == l.issuedAt
  {
    steps, s := Serve(c, [], START, clear, l);
    steps, s := BeginPurge(c, steps, s, clear, 1, e');
    steps, s := EndPurge(c, steps, s, clear, 1, e');
    steps, s := OneStep(c, steps, s, clear, Read(1, 0));
    steps, s := OneStep(c, steps, s, clear, Put(1));
    steps, s := OneStep(c, steps, s, clear, Fail(1));
  }

  lemma RelinkReopens(c: Config, e: Message, l: Message, e': Message, r: Message) returns (steps: seq<Step>)
    requires EraseIn(c, e) && CameBack(c, e.sub, l, e', r)
    ensures ClearFree(steps) && DoneNotErased(c, steps, e)
  {
    var s;
    steps, s := EraseFirst(c, e', l, false);
    steps, s := BeginPurge(c, steps, s, false, 0, e);
    steps, s := BeginAck(c, steps, s, false, e);
    steps, s := Serve(c, steps, s, false, r);
    steps := AckAnyway(c, steps, s, false, e);
  }

  /**
   Exactly when "done" may be acked for a user who is not erased, Clear aside:
   the queue holds an unlock newer than a lock no older than the erase, or a
   relink newer than a lock under which some erase of the user took effect.
   */
  lemma DoneNotErasedIffReopened(c: Config, e: Message)
    requires EraseIn(c, e)
    ensures (exists steps :: ClearFree(steps) && DoneNotErased(c, steps, e)) <==> Reopened(c, e)
  {
    if steps :| ClearFree(steps) && DoneNotErased(c, steps, e) {
      NotErasedMeansReopened(c, steps, e);
    }
    if UnlockedOver(c, e) {
      var l, u :| LocksFor(c, l, e.sub) && UnlocksFor(c, u, e.sub) && e.issuedAt <= l.issuedAt < u.issuedAt;
      var steps := UnlockReopens(c, e, l, u);
    } else if Relinked(c, e.sub) {
      var l, e', r :| CameBack(c, e.sub, l, e', r);
      var steps := RelinkReopens(c, e, l, e', r);
    }
  }

  /**
   With Clear it takes no message: any erase with a timestamp, delivered twice,
   can be acked done for a user who is back.
   */
  lemma ClearReopens(c: Config, e: Message) returns (steps: seq<Step>)
    requires EraseIn(c, e) && e.issuedAt > 0
    ensures DoneNotErased(c, steps, e)
  {
    var s;
    steps, s := EraseFirst(c, e, e, true);
    steps, s := BeginPurge(c, steps, s, true, 0, e);
    steps, s := BeginAck(c, steps, s, true, e);
    steps, s := OneStep(c, steps, s, true, StartClear(1, e.sub));
    steps, s := OneStep(c, steps, s, true, Read(1, 0));
    steps, s := OneStep(c, steps, s, true, Put(1));
    steps := AckAnyway(c, steps, s, true, e);
  }

  /**
   A user who left, came back by Clear at `now` and leaves again: the newer
   erase, of whatever request, reaches its purge.
   */
  lemma LeavingAgainIsPurged(c: Config, e: Message, again: Message, now: int) returns (steps: seq<Step>)
    requires EraseIn(c, e) && e.issuedAt > 0 && ErasesFor(c, again, e.sub)
    requires again.issuedAt > now && again.issuedAt > e.issuedAt
    ensures Run(c, steps).Some? && At(Run(c, steps).value, 0) == Purging(again)
    ensures exists n :: 0 <= n < |steps| && steps[n] == StartClear(1, e.sub)
  {
    var s;
    steps, s := EraseFirst(c, e, e, true);
    var cleared := |steps|;
    steps, s := OneStep(c, steps, s, true, StartClear(1, e.sub));
    steps, s := OneStep(c, steps, s, true, Read(1, now));
    steps, s := OneStep(c, steps, s, true, Put(1));
    steps, s := OneStep(c, steps, s, true, Deliver(0, again));
    steps, s := OneStep(c, steps, s, true, Read(0, 0));
    steps, s := OneStep(c, steps, s, true, Put(0));
    assert steps[cleared] == StartClear(1, e.sub);
  }

  /** For an erase with a real timestamp: any newer unlock or relink of the user will do. */
  lemma NewerReopens(c: Config, e: Message, x: Message)
    requires EraseIn(c, e) && e.issuedAt > 0 && e.issuedAt < x.issuedAt
    requires UnlocksFor(c, x, e.sub) || RelinksFor(c, x, e.sub)
    ensures Reopened(c, e)
  {
    assert LocksFor(c, e, e.sub) && ErasesFor(c, e, e.sub);
    if RelinksFor(c, x, e.sub) { assert CameBack(c, e.sub, e, e, x); }
  }
}
