/**
 The imperative side of the erasure participant: Store.ApplyChanged, Clear and
 Relink with their bounded retry loop (erasure/state.go), and Consumer.handle
 (erasure/consumer.go). Between any read and the put that follows it, other
 consumers may commit anything they are allowed to; each method is proved to
 take effect at one instant, and to leave the shared invariant intact.
 */
module ErasureStore {
  import opened Options
  import opened Doubling
  import opened Erasure
  import opened ErasureRun

  datatype Error = NoError | StoreError | ConcurrentUpdate

  /** What handle decides: handled (the message is deleted) or left for redelivery. */
  datatype Outcome = Handled(ack: Option<Result>) | Left

  /** One long poll: it failed, brought nothing, or brought a body (None: not decodable) with its purge's result. */
  datatype Poll = PollFailed | Empty | Got(body: Option<Message>, purge: Option<Result>)

  /** How many polls came back empty since the last message; failed polls neither count nor reset. */
  function Empties(polls: seq<Poll>): nat {
    if polls == [] then 0
    else match polls[|polls| - 1]
      case Got(_, _) => 0
      case Empty => 1 + Empties(polls[..|polls| - 1])
      case PollFailed => Empties(polls[..|polls| - 1])
  }

  /** The sleep after these polls: the base doubled with each further empty poll, up to the maximum. */
  function IdleAfter(polls: seq<Poll>, base: int, max: int): int {
    if max <= 0 || Empties(polls) == 0 then 0 else Capped(base, Empties(polls) - 1, max)
  }

  ghost predicate SleptRight(polls: seq<Poll>, sleeps: seq<int>, base: int, max: int) {
    && |sleeps| == |polls|
    && forall i :: 0 <= i < |polls| ==> sleeps[i] == if polls[i].Empty? then IdleAfter(polls[..i + 1], base, max) else 0
  }

  lemma SleptOneMore(polls: seq<Poll>, sleeps: seq<int>, base: int, max: int, poll: Poll)
    requires SleptRight(polls, sleeps, base, max)
    ensures var slept := if poll.Empty? then IdleAfter(polls + [poll], base, max) else 0;
            SleptRight(polls + [poll], sleeps + [slept], base, max)
  {
    var more := polls + [poll];
    forall i | 0 <= i < |polls|
      ensures sleeps[i] == if more[i].Empty? then IdleAfter(more[..i + 1], base, max) else 0
    {
      assert more[..i + 1] == polls[..i + 1];
    }
    assert more[..|polls| + 1] == more;
  }

  /** How the loop updates its idle time after one more poll. */
  method NextIdle(idle: int, poll: Poll, base: int, max: int, ghost polls: seq<Poll>) returns (next: int)
    requires base >= 0 && idle == IdleAfter(polls, base, max)
    ensures next == IdleAfter(polls + [poll], base, max)
  {
    assert (polls + [poll])[..|polls|] == polls;
    next := idle;
    if poll.PollFailed? { return; }
    if poll.Empty? && max > 0 {
      if Empties(polls) > 0 { CappedDoubles(base, Empties(polls) - 1, max); }
      next := Min(Max(idle * 2, base), max);
    } else {
      next := 0;
    }
  }

  /** The message had its effect: its operation was committed, or, for an erase, an ack was sent. */
  predicate Settled(m: Message, committed: seq<Commit>, sent: seq<(Message, Result, bool)>) {
    match m.kind
    case EraseMsg => exists a :: a in sent && a.0 == m
    case RelinkMsg => exists e :: e in committed && e.op == RelinkOp(m.sub, m.issuedAt)
    case _ => exists e :: e in committed && e.op == ApplyOp(SubKey(m.sub), m)
  }

  lemma SettledStays(m: Message, committed: seq<Commit>, sent: seq<(Message, Result, bool)>,
                     committed': seq<Commit>, sent': seq<(Message, Result, bool)>)
    requires Settled(m, committed, sent) && committed <= committed' && sent <= sent'
    ensures Settled(m, committed', sent')
  {}

  // ---- What a message makes the consumer commit -----------------------------------------

  function OpsOf(commits: seq<Commit>): seq<Op> { seq(|commits|, i requires 0 <= i < |commits| => commits[i].op) }

  /** From `before` on, these operations were committed, in this order, and no other. */
  predicate Did(before: seq<Commit>, after: seq<Commit>, ops: seq<Op>) {
    before <= after && OpsOf(after[|before|..]) == ops
  }

  /** What was committed is a beginning of the plan, and all of it if `whole`. */
  predicate Follows(before: seq<Commit>, after: seq<Commit>, plan: seq<Op>, whole: bool) {
    before <= after && OpsOf(after[|before|..]) <= plan && (whole ==> Did(before, after, plan))
  }

  lemma DidThen(a: seq<Commit>, b: seq<Commit>, d: seq<Commit>, ops: seq<Op>, plan: seq<Op>, whole: bool)
    requires Did(a, b, ops) && Follows(b, d, plan, whole)
    ensures Follows(a, d, ops + plan, whole)
  {
    assert OpsOf(d[|a|..]) == OpsOf(b[|a|..]) + OpsOf(d[|b|..]);
  }

  lemma Ahead(a: seq<Commit>, b: seq<Commit>, ops: seq<Op>, rest: seq<Op>)
    requires Did(a, b, ops)
    ensures Follows(a, b, ops + rest, false)
  {}

  /** The tombstones of the first n workspaces. */
  function OrgOps(m: Message, n: nat): seq<Op>
    requires n <= |Workspaces(m)|
  {
    seq(n, i requires 0 <= i < n => ApplyOp(OrgKey(Workspaces(m)[i]), m))
  }

  /** After the purge: every workspace, in order, then the user. */
  function ClosingOps(m: Message): seq<Op> { OrgOps(m, |Workspaces(m)|) + [ApplyOp(SubKey(m.sub), m)] }

  /** An erase locks the user first, and closes only after a purge that is done. */
  function Plan(m: Message, purged: bool): seq<Op> {
    match m.kind
    case EraseMsg => [ApplyOp(SubKey(m.sub), m.(kind := LockMsg))] + (if purged then ClosingOps(m) else [])
    case RelinkMsg => [RelinkOp(m.sub, m.issuedAt)]
    case _ => [ApplyOp(SubKey(m.sub), m)]
  }

  /** One of the messages received was for this service and plans this operation. */
  predicate CalledFor(service: string, polls: seq<Poll>, op: Op) {
    exists i :: 0 <= i < |polls| && Plans(service, polls[i], op)
  }

  predicate Plans(service: string, poll: Poll, op: Op) {
    poll.Got? && poll.body.Some? && Targets(poll.body.value, service) && op in Plan(poll.body.value, true)
  }

  /** Nothing was committed that no message called for. */
  ghost predicate OnlyCalledFor(service: string, polls: seq<Poll>, before: seq<Commit>, after: seq<Commit>) {
    before <= after && forall k :: |before| <= k < |after| ==> CalledFor(service, polls, after[k].op)
  }

  lemma CalledForByOneMore(
    service: string, polls: seq<Poll>, poll: Poll, a: seq<Commit>, b: seq<Commit>, d: seq<Commit>)
    requires OnlyCalledFor(service, polls, a, b) && b <= d
    requires forall k :: |b| <= k < |d| ==> Plans(service, poll, d[k].op)
    ensures OnlyCalledFor(service, polls + [poll], a, d)
  {
    var more := polls + [poll];
    forall k | |a| <= k < |d| ensures CalledFor(service, more, d[k].op) {
      if k < |b| {
        assert b[k] == d[k] && CalledFor(service, polls, b[k].op);
        var i :| 0 <= i < |polls| && Plans(service, polls[i], b[k].op);
        assert more[i] == polls[i];
      } else {
        assert more[|polls|] == poll;
      }
    }
  }

  lemma FollowsPlans(service: string, poll: Poll, before: seq<Commit>, after: seq<Commit>, purged: bool, whole: bool)
    requires poll.Got? && poll.body.Some? && Targets(poll.body.value, service)
    requires Follows(before, after, Plan(poll.body.value, purged), whole)
    ensures forall k :: |before| <= k < |after| ==> Plans(service, poll, after[k].op)
  {
    var m := poll.body.value;
    forall k | |before| <= k < |after| ensures after[k].op in Plan(m, true) {
      var i := k - |before|;
      assert OpsOf(after[|before|..])[i] == after[k].op;
      assert Plan(m, purged)[i] == after[k].op;
      assert Plan(m, true)[i] == Plan(m, purged)[i];
    }
  }

  lemma SettledByPlan(
    before: seq<Commit>, after: seq<Commit>, sent: seq<(Message, Result, bool)>, m: Message)
    requires m.kind != EraseMsg && Did(before, after, Plan(m, false))
    ensures Settled(m, after, sent)
  {
    assert OpsOf(after[|before|..])[0] == after[|before|].op;
    assert after[|before|] in after;
  }

  // ---- What may keep a message on the queue -------------------------------------------

  /** None of the calls from number `since` up to `calls` failed. */
  predicate NoneFailed(fails: nat -> bool, since: nat, calls: nat) {
    forall n :: since <= n < calls ==> !Fails(fails, n)
  }

  predicate Fails(fails: nat -> bool, n: nat) { fails(n) }

  /** The last of these calls failed. */
  predicate LastFailed(fails: nat -> bool, since: nat, calls: nat) { since < calls && Fails(fails, calls - 1) }

  lemma OneCall(fails: nat -> bool, n: nat)
    ensures LastFailed(fails, n, n + 1) <==> Fails(fails, n)
    ensures NoneFailed(fails, n, n + 1) <==> !Fails(fails, n)
  {}

  lemma OneMoreCall(fails: nat -> bool, since: nat, n: nat)
    requires NoneFailed(fails, since, n) && since <= n
    ensures LastFailed(fails, since, n + 1) <==> Fails(fails, n)
    ensures NoneFailed(fails, since, n + 1) <==> !Fails(fails, n)
  {}

  lemma MoreCalls(fails: nat -> bool, since: nat, n: nat, calls: nat)
    requires NoneFailed(fails, since, n) && since <= n <= calls
    ensures LastFailed(fails, n, calls) ==> LastFailed(fails, since, calls)
    ensures NoneFailed(fails, n, calls) ==> NoneFailed(fails, since, calls)
  {}

  /** Some key was written at least n times from one world to the other. */
  ghost predicate Overtaken(w: World, w': World, n: nat) { exists key :: Writes(w', key) >= Writes(w, key) + n }

  lemma OvertakenSince(w0: World, w: World, w': World, n: nat)
    requires Advance(w0, w) && Overtaken(w, w', n)
    ensures Overtaken(w0, w', n)
  {
    var key :| Writes(w', key) >= Writes(w, key) + n;
    assert CountsWrites(w0, w, key);
  }

  /** The user is active as of this erase, or later, on behalf of another request. */
  predicate OtherRequest(w: World, m: Message) {
    var r := Previous(Lookup(w.table, SubKey(m.sub)), SubKey(m.sub));
    r.state == Active && m.issuedAt <= r.seqNS && r.requestId != m.requestId
  }

  /**
   The operation took effect at one instant: in the world `at`, reached from
   `w0`, it left `w` and reported `answer`.
   */
  ghost predicate TookEffect(c: Config, w0: World, at: World, w: World, op: Op, then_: Then, now: int, answer: Record) {
    && Advance(w0, at) && TableInv(c, at) && Fits(c, at, op, then_) && w == Committed(c, at, op, now)
    && answer == OpAnswer(Lookup(at.table, OpKey(op)), op, now, c.erasedTTL)
  }

  /** How often handle reads and puts before it gives up. */
  function RoundsFor(m: Message): nat { if m.kind == RelinkMsg then 1 else ATTEMPTS }

  /**
   Why a body is left on the queue: it does not decode, the last call failed,
   others wrote a key once per round, the purge did not succeed, or the
   erase is stale and not of the request purged.
   */
  ghost predicate LeftFor(
    body: Option<Message>, purge: Option<Result>, purgeRan: bool, failed: bool, w0: World, w: World) {
    || failed || body.None? || !ValidMessage(body.value)
    || Overtaken(w0, w, RoundsFor(body.value))
    || (body.value.kind == EraseMsg && if purgeRan then purge.None? else OtherRequest(w, body.value))
  }

  /** At some moment in between, the erase was stale and not of the request purged. */
  ghost predicate OtherRequestBetween(w0: World, w: World, m: Message) {
    exists at :: Advance(w0, at) && Advance(at, w) && OtherRequest(at, m)
  }

  /** Why a message that was received is still on the queue, as of a later world. */
  ghost predicate Excused(poll: Poll, failed: bool, w0: World, w: World) {
    poll.Got? ==>
      || failed || poll.body.None? || !ValidMessage(poll.body.value)
      || Overtaken(w0, w, RoundsFor(poll.body.value))
      || (poll.body.value.kind == EraseMsg && (poll.purge.None? || OtherRequestBetween(w0, w, poll.body.value)))
  }

  lemma ExcusedStays(poll: Poll, failed: bool, w0: World, w: World, failed': bool, w': World)
    requires Excused(poll, failed, w0, w) && (failed ==> failed') && Advance(w, w')
    ensures Excused(poll, failed', w0, w')
  {
    if poll.Got? && poll.body.Some? {
      var m := poll.body.value;
      if Overtaken(w0, w, RoundsFor(m)) {
        var key :| Writes(w, key) >= Writes(w0, key) + RoundsFor(m);
        assert CountsWrites(w, w', key);
      }
      if OtherRequestBetween(w0, w, m) {
        var at :| Advance(w0, at) && Advance(at, w) && OtherRequest(at, m);
        AdvanceTrans(at, w, w');
      }
    }
  }

  lemma LeftIsExcused(poll: Poll, purgeRan: bool, failed: bool, w0: World, w1: World, w: World)
    requires poll.Got? && LeftFor(poll.body, poll.purge, purgeRan, failed, w1, w) && Advance(w0, w1) && Advance(w1, w)
    ensures Excused(poll, failed, w0, w)
  {
    if poll.body.Some? && Overtaken(w1, w, RoundsFor(poll.body.value)) {
      OvertakenSince(w0, w1, w, RoundsFor(poll.body.value));
    }
    AdvanceTrans(w0, w1, w);
    AdvanceRefl(w);
  }

  lemma AdvanceRefl(w: World)
    ensures Advance(w, w)
  {}

  class Participant {
    const c: Config
    /** Whether the n-th call to the store, the ack topic or the queue fails. A failed call changes nothing. */
    const fails: nat -> bool
    var calls: nat
    var w: World
    /** What this consumer itself committed and sent, oldest first. */
    var committed: seq<Commit>
    var sent: seq<(Message, Result, bool)>

    constructor (c: Config, fails: nat -> bool)
      ensures this.c == c && this.fails == fails && TableInv(c, w) && committed == [] && sent == [] && calls == 0
    {
      this.c, this.fails := c, fails;
      w, committed, sent, calls := START.w, [], [], 0;
    }

    method Call() returns (failed: bool)
      modifies this`calls
      ensures failed == Fails(fails, old(calls)) && calls == old(calls) + 1
    {
      failed, calls := Fails(fails, calls), calls + 1;
    }

    /** Any number of commits by other consumers, and purges they finished. */
    method Others()
      requires TableInv(c, w)
      modifies this`w
      ensures TableInv(c, w) && Advance(old(w), w)
    {
      var finished: set<(string, string)> := *;
      w := w.(purged := w.purged + finished);
      JustifiedByMore(c, old(w), w);
      var others: seq<(Op, int, Then)> := *;
      for i := 0 to |others|
        invariant TableInv(c, w) && Advance(old(w), w)
      {
        var (op, now, then_) := others[i];
        if Fits(c, w, op, then_) {
          CommitKeeps(c, w, op, now, then_);
          AdvanceTrans(old(w), w, Committed(c, w, op, now));
          w := Committed(c, w, op, now);
        }
      }
    }

    /** The read of a round, others acting before it. */
    method Get(op: Op, then_: Then, ghost w0: World) returns (failed: bool, cur: Option<Record>)
      requires TableInv(c, w) && Fits(c, w, op, then_) && Advance(w0, w)
      modifies this`w, this`calls
      ensures TableInv(c, w) && Fits(c, w, op, then_) && Advance(w0, w) && Advance(old(w), w)
      ensures calls == old(calls) + 1 && failed == Fails(fails, old(calls))
      ensures cur == Lookup(w.table, OpKey(op)) && Writes(w, OpKey(op)) >= Writes(old(w), OpKey(op))
    {
      Others();
      assert CountsWrites(old(w), w, OpKey(op));
      AdvanceTrans(w0, old(w), w);
      ProcStable(c, old(w), w, Reading(op, 0, then_));
      failed := Call();
      cur := Lookup(w.table, OpKey(op));
    }

    /** A round with nothing to write takes effect at its read. */
    method LeaveAlone(op: Op, then_: Then, now: int, answer: Record, ghost w0: World)
      requires TableInv(c, w) && Fits(c, w, op, then_) && Advance(w0, w)
      requires answer == OpAnswer(Lookup(w.table, OpKey(op)), op, now, c.erasedTTL)
      modifies this`w, this`committed
      ensures TableInv(c, w) && Advance(w0, w) && TookEffect(c, w0, old(w), w, op, then_, now, answer)
      ensures committed == old(committed) + [Commit(op, now, answer)]
    {
      CommitKeeps(c, w, op, now, then_);
      AdvanceTrans(w0, w, Committed(c, w, op, now));
      w, committed := Committed(c, w, op, now), committed + [Commit(op, now, answer)];
    }

    /** A put whose condition holds stores the record it computed from what it read. */
    method Store(op: Op, then_: Then, cur: Option<Record>, now: int, ghost w0: World)
      requires TableInv(c, w) && Fits(c, w, op, then_) && Advance(w0, w) && ReadBelow(w.table, OpKey(op), cur)
      requires OpWrite(cur, op, now, c.erasedTTL).Some? && CanPut(Lookup(w.table, OpKey(op)), cur)
      modifies this`w, this`committed
      ensures TableInv(c, w) && Advance(w0, w) && cur == Lookup(old(w).table, OpKey(op))
      ensures TookEffect(c, w0, old(w), w, op, then_, now, OpWrite(cur, op, now, c.erasedTTL).value)
      ensures committed == old(committed) + [Commit(op, now, OpWrite(cur, op, now, c.erasedTTL).value)]
    {
      PutIsAtomic(c, w, op, cur, now);
      CommitKeeps(c, w, op, now, then_);
      AdvanceTrans(w0, w, Committed(c, w, op, now));
      committed := committed + [Commit(op, now, OpWrite(cur, op, now, c.erasedTTL).value)];
      w := Stored(c, w, op, cur, now);
    }

    /** The conditional put of a round that read `cur`, others acting before it. */
    method Put(op: Op, then_: Then, cur: Option<Record>, now: int, ghost w0: World)
      returns (err: Error, ghost at: World)
      requires TableInv(c, w) && Fits(c, w, op, then_) && Advance(w0, w)
      requires cur == Lookup(w.table, OpKey(op)) && OpWrite(cur, op, now, c.erasedTTL).Some?
      modifies this`w, this`committed, this`calls
      ensures TableInv(c, w) && Advance(w0, w)
      ensures calls == old(calls) + 1 && (err == StoreError <==> Fails(fails, old(calls)))
      ensures err == NoError ==> cur == Lookup(at.table, OpKey(op))
      ensures err == NoError ==> TookEffect(c, w0, at, w, op, then_, now, OpWrite(cur, op, now, c.erasedTTL).value)
      ensures err == ConcurrentUpdate ==> Writes(w, OpKey(op)) > Writes(old(w), OpKey(op))
      ensures err != NoError ==> Fits(c, w, op, then_)
      ensures committed == old(committed) +
                (if err == NoError then [Commit(op, now, OpWrite(cur, op, now, c.erasedTTL).value)] else [])
    {
      Others();
      AdvanceTrans(w0, old(w), w);
      ProcStable(c, old(w), w, Putting(op, 0, cur, now, then_));
      assert CountsWrites(old(w), w, OpKey(op));
      at := w;
      var failed := Call();
      if failed { return StoreError, at; }
      if !CanPut(Lookup(w.table, OpKey(op)), cur) { return ConcurrentUpdate, at; }
      Store(op, then_, cur, now, w0);
      return NoError, at;
    }

    /**
     One read-decide-put round of `op`, in a call that began in the world `w0`.
     On success the operation took effect atomically in the world `at`, and
     `answer` is what it reported there. Otherwise it wrote nothing: a store
     call failed, or another consumer wrote the key between read and put.
     */
    method Round(op: Op, then_: Then, ghost w0: World)
      returns (err: Error, was: State, answer: Record, now: int, ghost at: World)
      requires TableInv(c, w) && Fits(c, w, op, then_) && Advance(w0, w)
      modifies this`w, this`committed, this`calls
      ensures TableInv(c, w) && Advance(w0, w)
      ensures err == StoreError <==> LastFailed(fails, old(calls), calls)
      ensures old(calls) < calls <= old(calls) + 2 && (err != StoreError ==> NoneFailed(fails, old(calls), calls))
      ensures err == ConcurrentUpdate ==> Writes(w, OpKey(op)) > Writes(old(w), OpKey(op))
      ensures err == NoError ==> TookEffect(c, w0, at, w, op, then_, now, answer)
      ensures err == NoError ==> was == Previous(Lookup(at.table, OpKey(op)), OpKey(op)).state
      ensures err != NoError ==> Fits(c, w, op, then_)
      ensures committed == old(committed) + (if err == NoError then [Commit(op, now, answer)] else [])
    {
      now, err := *, StoreError;
      ghost var n := calls;
      OneCall(fails, n);
      var failed, cur := Get(op, then_, w0);
      at, was, answer := w, Previous(cur, OpKey(op)).state, Previous(cur, OpKey(op));
      if failed { return; }
      var write := OpWrite(cur, op, now, c.erasedTTL);
      if write.None? {
        LeaveAlone(op, then_, now, answer, w0);
        err := NoError;
      } else {
        answer := write.value;
        assert calls == n + 1;
        OneMoreCall(fails, n, n + 1);
        err, at := Put(op, then_, cur, now, w0);
        assert calls == n + 2 && (err == StoreError <==> Fails(fails, n + 1));
      }
    }

    /**
     Apply with up to three rounds; only a lost race is tried again. A store
     error means the last call failed; giving up takes three rounds, in each of
     which someone else wrote the key.
     */
    method ApplyChanged(key: string, m: Message, then_: Then)
      returns (answer: Record, changed: bool, err: Error, now: int, ghost at: World)
      requires TableInv(c, w) && Fits(c, w, ApplyOp(key, m), then_)
      modifies this`w, this`committed, this`calls
      ensures TableInv(c, w) && Advance(old(w), w)
      ensures err == NoError ==> TookEffect(c, old(w), at, w, ApplyOp(key, m), then_, now, answer)
      ensures changed <==> err == NoError && answer.state != Previous(Lookup(at.table, key), key).state
      ensures committed == old(committed) + (if err == NoError then [Commit(ApplyOp(key, m), now, answer)] else [])
      ensures err == StoreError <==> LastFailed(fails, old(calls), calls)
      ensures old(calls) < calls <= old(calls) + 2 * ATTEMPTS &&
                (err != StoreError ==> NoneFailed(fails, old(calls), calls))
      ensures err == ConcurrentUpdate ==> Writes(w, key) >= Writes(old(w), key) + ATTEMPTS
    {
      var op := ApplyOp(key, m);
      var attempt := 0;
      answer, changed, err, now, at := Previous(None, key), false, ConcurrentUpdate, 0, w;
      while attempt < ATTEMPTS
        invariant attempt <= ATTEMPTS && TableInv(c, w) && Advance(old(w), w) && Fits(c, w, op, then_)
        invariant committed == old(committed) && err == ConcurrentUpdate && !changed
        invariant old(calls) + attempt <= calls <= old(calls) + 2 * attempt && NoneFailed(fails, old(calls), calls)
        invariant Writes(w, key) >= Writes(old(w), key) + attempt
      {
        var was;
        err, was, answer, now, at := Round(op, then_, old(w));
        if err == NoError {
          changed := answer.state != was;
          return;
        }
        if err != ConcurrentUpdate { return; }
        attempt := attempt + 1;
      }
    }

    /** Apply, and where handle stands once it answered in the world `at`. */
    method ApplyThen(key: string, m: Message, then_: Then)
      returns (answer: Record, err: Error, ghost now: int, ghost at: World)
      requires TableInv(c, w) && Fits(c, w, ApplyOp(key, m), then_)
      modifies this`w, this`committed, this`calls
      ensures err != NoError ==> LastFailed(fails, old(calls), calls) || Overtaken(old(w), w, ATTEMPTS)
      ensures old(calls) < calls && (err == NoError ==> NoneFailed(fails, old(calls), calls))
      ensures TableInv(c, w) && Advance(old(w), w)
      ensures err == NoError ==> ProcInv(c, w, Continue(then_, answer))
      ensures err == NoError ==> Advance(old(w), at) && Advance(at, w) && w == Committed(c, at, ApplyOp(key, m), now)
      ensures err == NoError ==> answer == OpAnswer(Lookup(at.table, key), ApplyOp(key, m), now, c.erasedTTL)
      ensures Did(old(committed), committed, if err == NoError then [ApplyOp(key, m)] else [])
    {
      var changed, when;
      answer, changed, err, when, at := ApplyChanged(key, m, then_);
      now := when;
      if err == NoError {
        ContinueKeeps(c, at, ApplyOp(key, m), now, then_);
        CommitAdvances(c, at, ApplyOp(key, m), now);
      }
    }

    /** Clear and Relink: a single round; a lost race is an error. */
    method Reactivate(op: Op) returns (err: Error, now: int, answer: Record, ghost at: World)
      requires TableInv(c, w) && !op.ApplyOp?
      modifies this`w, this`committed, this`calls
      ensures err == StoreError <==> LastFailed(fails, old(calls), calls)
      ensures old(calls) < calls <= old(calls) + 2 && (err != StoreError ==> NoneFailed(fails, old(calls), calls))
      ensures err == ConcurrentUpdate ==> Writes(w, OpKey(op)) > Writes(old(w), OpKey(op))
      ensures TableInv(c, w) && Advance(old(w), w)
      ensures err == NoError ==> TookEffect(c, old(w), at, w, op, Finish, now, answer)
      ensures committed == old(committed) + (if err == NoError then [Commit(op, now, answer)] else [])
    {
      var was;
      err, was, answer, now, at := Round(op, Finish, w);
    }

    method SendAck(m: Message, result: Result, purgedHere: bool) returns (out: Outcome)
      requires TableInv(c, w) && ProcInv(c, w, Acking(m, result, purgedHere))
      modifies this`w, this`sent, this`calls
      ensures TableInv(c, w) && Advance(old(w), w)
      ensures calls == old(calls) + 1 && out == if Fails(fails, old(calls)) then Left else Handled(Some(result))
      ensures out == Left ==> sent == old(sent)
      ensures out != Left ==> sent == old(sent) + [(m, result, purgedHere)]
      ensures out == Handled(Some(Done)) ==> (m, purgedHere) in w.acked
    {
      var failed := Call();
      if failed { return Left; }
      if result == Done { w := w.(acked := w.acked + {(m, purgedHere)}); }
      sent := sent + [(m, result, purgedHere)];
      out := Handled(Some(result));
    }

    /**
     handle for one decoded body (None: it did not decode). `purge` stands for
     the service's PurgeFunc: done, blocked, or (None) an error or unknown result.
     */
    method HandleBody(body: Option<Message>, purge: Option<Result>) returns (out: Outcome, purgeRan: bool)
      requires TableInv(c, w)
      requires body.Some? ==> body.value in c.sent
      modifies this
      ensures TableInv(c, w) && Advance(old(w), w)
      ensures body.None? || !ValidMessage(body.value) ==> out == Left && w == old(w) && committed == old(committed)
      ensures body.Some? && ValidMessage(body.value) && !Targets(body.value, c.service) ==>
                out == Handled(None) && w == old(w) && committed == old(committed) && calls == old(calls)
      ensures out == Left ==> LeftFor(body, purge, purgeRan, LastFailed(fails, old(calls), calls), old(w), w)
      ensures old(calls) <= calls &&
                (out.Handled? ==> NoneFailed(fails, old(calls), calls) && (purgeRan ==> purge.Some?))
      ensures purgeRan ==> body.Some? && EraseIn(c, body.value) && body.value.sub in w.held
      ensures out == Handled(Some(Done)) ==>
                && body.Some? && EraseIn(c, body.value)
                && (purgeRan ==> purge == Some(Done) && (body.value, true) in w.acked)
                && (!purgeRan ==> (body.value, false) in w.acked)
      ensures out == Handled(Some(Blocked)) ==> purgeRan && purge == Some(Blocked)
      ensures body.Some? && ValidMessage(body.value) && Targets(body.value, c.service) ==>
                Follows(old(committed), committed, Plan(body.value, purgeRan && purge == Some(Done)), out.Handled?)
      ensures out.Handled? ==> body.Some? && ValidMessage(body.value)
      ensures out.Handled? && Targets(body.value, c.service) ==> Settled(body.value, committed, sent)
      ensures sent == old(sent) +
                (if out.Handled? && out.ack.Some?
                 then [(body.value, out.ack.value, purgeRan && out.ack == Some(Done))] else [])
    {
      purgeRan := false;
      if body.None? || !ValidMessage(body.value) { return Left, false; }
      var m := body.value;
      if !Targets(m, c.service) { return Handled(None), false; }
      if m.kind != EraseMsg {
        out := HandleChange(m);
        return;
      }
      var end, ran, _, _, _ := HandleErase(m, purge);
      out, purgeRan := end, ran;
      assert out.Handled? ==> sent[|sent| - 1].0 == m;
    }

    /** A relink, lock or unlock: one operation on the user's record. */
    method HandleChange(m: Message) returns (out: Outcome)
      requires TableInv(c, w) && Queued(c, m) && m.kind != EraseMsg
      modifies this`w, this`committed, this`calls
      ensures TableInv(c, w) && Advance(old(w), w)
      ensures out == Handled(None) || out == Left
      ensures out == Left ==> LastFailed(fails, old(calls), calls) || Overtaken(old(w), w, RoundsFor(m))
      ensures old(calls) < calls && (out.Handled? ==> NoneFailed(fails, old(calls), calls))
      ensures Follows(old(committed), committed, Plan(m, false), out.Handled?)
      ensures out.Handled? ==> Settled(m, committed, sent)
    {
      if m.kind == RelinkMsg {
        var err, _, _, _ := Reactivate(RelinkOp(m.sub, m.issuedAt));
        out := if err == NoError then Handled(None) else Left;
      } else {
        var _, err, _, _ := ApplyThen(SubKey(m.sub), m, Finish);
        out := if err == NoError then Handled(None) else Left;
      }
      if out.Handled? { SettledByPlan(old(committed), committed, sent, m); }
    }

    /**
     The consumer's loop over any finite run of polls. A message is deleted only
     after it was fully handled: an undecodable one never, one for this service
     only once its operation is committed or its erase is acked. Each empty poll
     in a row doubles the sleep, up to `maxIdle`.
     */
    method RunLoop(polls: seq<Poll>, idleBase: int, maxIdle: int) returns (deleted: seq<bool>, sleeps: seq<int>)
      requires TableInv(c, w) && idleBase >= 0
      requires forall i :: 0 <= i < |polls| && polls[i].Got? && polls[i].body.Some? ==> polls[i].body.value in c.sent
      modifies this
      ensures TableInv(c, w) && Advance(old(w), w)
      ensures OnlySettledDeleted(polls, deleted) && OthersExcused(polls, deleted, old(w), old(calls))
      ensures OnlyCalledFor(c.service, polls, old(committed), committed)
      ensures SleptRight(polls, sleeps, idleBase, maxIdle)
    {
      deleted, sleeps := [], [];
      var idle := 0;
      AdvanceRefl(w);
      for i := 0 to |polls|
        invariant TableInv(c, w) && Advance(old(w), w)
        invariant OnlySettledDeleted(polls[..i], deleted) && OthersExcused(polls[..i], deleted, old(w), old(calls))
        invariant old(calls) <= calls && OnlyCalledFor(c.service, polls[..i], old(committed), committed)
        invariant idle == IdleAfter(polls[..i], idleBase, maxIdle) && SleptRight(polls[..i], sleeps, idleBase, maxIdle)
      {
        assert polls[..i + 1] == polls[..i] + [polls[i]];
        idle := NextIdle(idle, polls[i], idleBase, maxIdle, polls[..i]);
        SleptOneMore(polls[..i], sleeps, idleBase, maxIdle, polls[i]);
        sleeps := sleeps + [if polls[i].Empty? then idle else 0];
        ghost var done := committed;
        var gone := HandleAndDelete(polls[i], old(w), old(calls), polls[..i], deleted);
        CalledForByOneMore(c.service, polls[..i], polls[i], old(committed), done, committed);
        deleted := deleted + [gone];
      }
      assert polls[..|polls|] == polls;
    }

    /** A message is off the queue only if it decoded and, when it is for this service, had its effect. */
    ghost predicate OnlySettledDeleted(polls: seq<Poll>, deleted: seq<bool>) reads this {
      && |deleted| == |polls|
      && forall i :: 0 <= i < |polls| && deleted[i] ==> polls[i].Got? && Disposable(polls[i].body)
    }

    /**
     A message is still on the queue only for a reason: a failed call, lost
     races, a purge or a stale erase, or its body.
     */
    ghost predicate OthersExcused(polls: seq<Poll>, deleted: seq<bool>, w0: World, calls0: nat) reads this {
      && |deleted| == |polls|
      && forall i :: 0 <= i < |polls| && !deleted[i] ==> Excused(polls[i], !NoneFailed(fails, calls0, calls), w0, w)
    }

    /** This body may leave the queue. */
    ghost predicate Disposable(body: Option<Message>) reads this {
      body.Some? && ValidMessage(body.value) &&
        (Targets(body.value, c.service) ==> Settled(body.value, committed, sent))
    }

    /** What one poll brought is handled, then deleted unless it was left or the delete fails. */
    method HandleAndDelete(
      poll: Poll, ghost w0: World, ghost calls0: nat, ghost polls: seq<Poll>, ghost deleted: seq<bool>)
      returns (gone: bool)
      requires TableInv(c, w) && Advance(w0, w) && calls0 <= calls
      requires OnlySettledDeleted(polls, deleted) && OthersExcused(polls, deleted, w0, calls0)
      requires poll.Got? && poll.body.Some? ==> poll.body.value in c.sent
      modifies this
      ensures TableInv(c, w) && Advance(w0, w) && calls0 <= calls
      ensures OnlySettledDeleted(polls + [poll], deleted + [gone]) &&
                OthersExcused(polls + [poll], deleted + [gone], w0, calls0)
      ensures old(committed) <= committed
      ensures forall k :: |old(committed)| <= k < |committed| ==> Plans(c.service, poll, committed[k].op)
    {
      gone := false;
      if !poll.Got? { return; }
      ghost var w1, n := w, calls;
      var out, ran := HandleBody(poll.body, poll.purge);
      AdvanceTrans(w0, w1, w);
      if poll.body.Some? && ValidMessage(poll.body.value) && Targets(poll.body.value, c.service) {
        FollowsPlans(c.service, poll, old(committed), committed, ran && poll.purge == Some(Done), out.Handled?);
      }
      forall j | 0 <= j < |polls| && deleted[j] ensures Disposable(polls[j].body) {
        var m := polls[j].body.value;
        if Targets(m, c.service) { SettledStays(m, old(committed), old(sent), committed, sent); }
      }
      if out == Left { LeftIsExcused(poll, ran, LastFailed(fails, n, calls), w0, w1, w); }
      if out.Handled? {
        var deleteFails := Call();
        gone := !deleteFails;
      }
      ghost var failed := !NoneFailed(fails, calls0, calls);
      forall j | 0 <= j < |polls| && !deleted[j] ensures Excused(polls[j], failed, w0, w) {
        ExcusedStays(polls[j], !NoneFailed(fails, calls0, n), w0, w1, failed, w);
      }
      if out == Left { ExcusedStays(poll, LastFailed(fails, n, calls), w0, w, failed, w); }
    }

    /**
     Lock first, then purge, then tombstones and the ack; a stale erase is only
     acked if its request was purged. The purge starts in a world `started`
     that holds the user as locked or erased. When it acks done, its last Apply
     found the world `found` and left `closed`.
     */
    method HandleErase(m: Message, purge: Option<Result>)
      returns (out: Outcome, purgeRan: bool, ghost started: World, ghost found: World, ghost closed: World)
      requires TableInv(c, w) && EraseIn(c, m)
      modifies this
      ensures TableInv(c, w) && Advance(old(w), w)
      ensures Follows(old(committed), committed, Plan(m, purgeRan && purge == Some(Done)), out.Handled?)
      ensures out != Handled(None)
      ensures out == Left ==> LeftFor(Some(m), purge, purgeRan, LastFailed(fails, old(calls), calls), old(w), w)
      ensures old(calls) < calls &&
                (out.Handled? ==> NoneFailed(fails, old(calls), calls) && (purgeRan ==> purge.Some?))
      ensures purgeRan ==>
                m.sub in w.held && Advance(old(w), started) && Advance(started, w) && HeldBack(started, m.sub)
      ensures out == Handled(Some(Done)) ==>
                && (purgeRan ==> purge == Some(Done) && (m, true) in w.acked && ClosedBy(started, found, closed, w, m))
                && (!purgeRan ==> (m, false) in w.acked)
      ensures out == Handled(Some(Blocked)) ==> purgeRan && purge == Some(Blocked)
      ensures sent == old(sent) +
                (if out.Handled? then [(m, out.ack.value, purgeRan && out.ack == Some(Done))] else [])
    {
      purgeRan := false;
      var rec, err, now, at := ApplyThen(SubKey(m.sub), m.(kind := LockMsg), AfterLock(m));
      started, found, closed := w, w, w;
      if err != NoError { return Left, false, w, w, w; }
      ghost var locked := committed;
      if rec.state == Active {
        if rec.requestId != m.requestId {
          StaleForOther(c, at, m, now);
          return Left, false, w, w, w;
        }
        OneMoreCall(fails, old(calls), calls);
        out := SendAck(m, Done, false);
      } else {
        purgeRan := true;
        ghost var n := calls;
        out, found, closed := PurgeAndAck(m, purge);
        MoreCalls(fails, old(calls), n, calls);
        LockThenClose(old(committed), locked, committed, m, purge == Some(Done), out.Handled?);
        if Overtaken(started, w, ATTEMPTS) { OvertakenSince(old(w), started, w, ATTEMPTS); }
      }
      AdvanceTrans(old(w), started, w);
    }

    /** The purge, and what follows from its result. */
    method PurgeAndAck(m: Message, purge: Option<Result>)
      returns (out: Outcome, ghost found: World, ghost closed: World)
      requires TableInv(c, w) && ProcInv(c, w, Purging(m))
      modifies this
      ensures TableInv(c, w) && Advance(old(w), w)
      ensures Follows(old(committed), committed, if purge == Some(Done) then ClosingOps(m) else [], out.Handled?)
      ensures out == Left || (purge.Some? && out == Handled(purge))
      ensures out == Left ==> purge.None? || LastFailed(fails, old(calls), calls) || Overtaken(old(w), w, ATTEMPTS)
      ensures old(calls) <= calls && (out.Handled? ==> NoneFailed(fails, old(calls), calls))
      ensures out == Handled(Some(Done)) ==> (m, true) in w.acked && ClosedBy(old(w), found, closed, w, m)
      ensures sent == old(sent) + (if out == Left then [] else [(m, purge.value, purge == Some(Done))])
    {
      Others(); // the purge takes its time
      found, closed := w, w;
      if purge.None? { return Left, w, w; }
      ghost var w1 := w;
      if purge.value == Blocked {
        OneCall(fails, calls);
        out := SendAck(m, Blocked, false);
      } else {
        w := w.(purged := w.purged + {(m.sub, m.requestId)});
        JustifiedByMore(c, w1, w);
        AdvanceTrans(old(w), w1, w);
        w1 := w;
        out, found, closed := TombstoneAndAck(m);
        if out != Left { AdvanceTrans(old(w), w1, found); }
        if Overtaken(w1, w, ATTEMPTS) { OvertakenSince(old(w), w1, w, ATTEMPTS); }
      }
      AdvanceTrans(old(w), w1, w);
    }

    /** After a purge returned done: every workspace, then the user unless active again since, then the ack. */
    method TombstoneAndAck(m: Message) returns (out: Outcome, ghost found: World, ghost closed: World)
      requires TableInv(c, w) && EraseIn(c, m) && (m.sub, m.requestId) in w.purged
      modifies this
      ensures TableInv(c, w) && Advance(old(w), w)
      ensures Follows(old(committed), committed, ClosingOps(m), out.Handled?)
      ensures out == Handled(Some(Done)) || out == Left
      ensures out == Left ==> LastFailed(fails, old(calls), calls) || Overtaken(old(w), w, ATTEMPTS)
      ensures old(calls) <= calls && (out.Handled? ==> NoneFailed(fails, old(calls), calls))
      ensures out != Left ==> (m, true) in w.acked && ClosedBy(old(w), found, closed, w, m)
      ensures sent == old(sent) + (if out == Left then [] else [(m, Done, true)])
    {
      ghost var n0 := calls;
      var ok := TombstoneAll(m);
      found, closed := w, w;
      if !ok { return Left, w, w; }
      ghost var before, n, done := w, calls, committed;
      out, found, closed := CloseAndAck(m);
      MoreCalls(fails, n0, n, calls);
      DidThen(old(committed), done, committed, OrgOps(m, |Workspaces(m)|), [ApplyOp(SubKey(m.sub), m)], out.Handled?);
      AdvanceTrans(old(w), before, w);
      if out != Left { AdvanceTrans(old(w), before, found); }
      if Overtaken(before, w, ATTEMPTS) { OvertakenSince(old(w), before, w, ATTEMPTS); }
    }

    /** Every workspace in order, up to the first whose Apply fails. */
    method TombstoneAll(m: Message) returns (ok: bool)
      requires TableInv(c, w) && EraseIn(c, m) && (m.sub, m.requestId) in w.purged
      modifies this`w, this`committed, this`calls
      ensures TableInv(c, w) && Advance(old(w), w)
      ensures ok ==> ProcInv(c, w, Tombstone(m, |Workspaces(m)|))
      ensures ok ==> Did(old(committed), committed, OrgOps(m, |Workspaces(m)|))
      ensures !ok ==> LastFailed(fails, old(calls), calls) || Overtaken(old(w), w, ATTEMPTS)
      ensures !ok ==> Follows(old(committed), committed, ClosingOps(m), false)
      ensures old(calls) <= calls && (ok ==> NoneFailed(fails, old(calls), calls))
    {
      var orgs := WorkspaceIDs(m);
      for i := 0 to |orgs|
        invariant TableInv(c, w) && Advance(old(w), w) && ProcInv(c, w, Tombstone(m, i))
        invariant Did(old(committed), committed, OrgOps(m, i))
        invariant old(calls) <= calls && NoneFailed(fails, old(calls), calls)
      {
        ghost var before, n, done := w, calls, committed;
        var _, err, _, _ := ApplyThen(OrgKey(orgs[i]), m, AfterOrg(m, i));
        MoreCalls(fails, old(calls), n, calls);
        AdvanceTrans(old(w), before, w);
        if Overtaken(before, w, ATTEMPTS) { OvertakenSince(old(w), before, w, ATTEMPTS); }
        CommittedOne(old(committed), done, committed, m, i, err == NoError);
        if err != NoError { return false; }
      }
      ok := true;
    }

    /** The user's own tombstone: the last Apply finds the world `found`. */
    method CloseUser(m: Message) returns (err: Error, ghost found: World)
      requires TableInv(c, w) && ProcInv(c, w, Tombstone(m, |Workspaces(m)|)) && EraseIn(c, m)
      modifies this`w, this`committed, this`calls
      ensures TableInv(c, w) && Advance(old(w), w)
      ensures Did(old(committed), committed, if err == NoError then [ApplyOp(SubKey(m.sub), m)] else [])
      ensures err != NoError ==> LastFailed(fails, old(calls), calls) || Overtaken(old(w), w, ATTEMPTS)
      ensures old(calls) < calls && (err == NoError ==> NoneFailed(fails, old(calls), calls))
      ensures err == NoError ==> ProcInv(c, w, Acking(m, Done, true)) && Advance(old(w), found) && Advance(found, w)
      ensures err == NoError ==> (UserErased(w, m) <==> !Returned(found, m))
    {
      ghost var now;
      var answer;
      answer, err, now, found := ApplyThen(SubKey(m.sub), m, AfterSub(m));
      if err == NoError { ErasedUnlessBack(c, found, m, now); }
    }

    /** The user's own tombstone, and the ack. */
    method CloseAndAck(m: Message) returns (out: Outcome, ghost found: World, ghost closed: World)
      requires TableInv(c, w) && ProcInv(c, w, Tombstone(m, |Workspaces(m)|)) && EraseIn(c, m)
      modifies this
      ensures TableInv(c, w) && Advance(old(w), w)
      ensures Follows(old(committed), committed, [ApplyOp(SubKey(m.sub), m)], out.Handled?)
      ensures out == Handled(Some(Done)) || out == Left
      ensures out == Left ==> LastFailed(fails, old(calls), calls) || Overtaken(old(w), w, ATTEMPTS)
      ensures old(calls) <= calls && (out.Handled? ==> NoneFailed(fails, old(calls), calls))
      ensures out != Left ==> (m, true) in w.acked && ClosedBy(old(w), found, closed, w, m)
      ensures sent == old(sent) + (if out == Left then [] else [(m, Done, true)])
    {
      var err;
      err, found := CloseUser(m);
      closed := w;
      if err != NoError { return Left, w, w; }
      OneMoreCall(fails, old(calls), calls);
      out := SendAck(m, Done, true);
      AdvanceTrans(old(w), closed, w);
    }
  }

  /** One more workspace, if its Apply succeeded. */
  lemma CommittedOne(before: seq<Commit>, done: seq<Commit>, after: seq<Commit>, m: Message, i: nat, ok: bool)
    requires i < |Workspaces(m)| && Did(before, done, OrgOps(m, i))
    requires Did(done, after, if ok then [ApplyOp(OrgKey(Workspaces(m)[i]), m)] else [])
    ensures ok ==> Did(before, after, OrgOps(m, i + 1))
    ensures !ok ==> Follows(before, after, ClosingOps(m), false)
  {
    if ok {
      DidThen(before, done, after, OrgOps(m, i), [ApplyOp(OrgKey(Workspaces(m)[i]), m)], true);
      assert OrgOps(m, i + 1) == OrgOps(m, i) + [ApplyOp(OrgKey(Workspaces(m)[i]), m)];
    } else {
      DidThen(before, done, after, OrgOps(m, i), [], true);
      assert OrgOps(m, i) + [] == OrgOps(m, i);
    }
  }

  /** A lock that finds the user active for another request leaves the store so. */
  lemma StaleForOther(c: Config, at: World, m: Message, now: int)
    requires m.kind == EraseMsg
    requires var answer := OpAnswer(Lookup(at.table, SubKey(m.sub)), ApplyOp(SubKey(m.sub), m.(kind := LockMsg)), now,
                                    c.erasedTTL);
             answer.state == Active && answer.requestId != m.requestId
    ensures OtherRequest(Committed(c, at, ApplyOp(SubKey(m.sub), m.(kind := LockMsg)), now), m)
  {}

  lemma LockThenClose(
    before: seq<Commit>, locked: seq<Commit>, after: seq<Commit>, m: Message, purged: bool, whole: bool)
    requires m.kind == EraseMsg && Did(before, locked, [ApplyOp(SubKey(m.sub), m.(kind := LockMsg))])
    requires Follows(locked, after, if purged then ClosingOps(m) else [], whole)
    ensures Follows(before, after, Plan(m, purged), whole)
  {
    DidThen(before, locked, after, Plan(m, false), if purged then ClosingOps(m) else [], whole);
    assert Plan(m, purged) == Plan(m, false) + if purged then ClosingOps(m) else [];
  }

  /** The store holds the user as locked or erased. */
  predicate HeldBack(w: World, sub: string) { SubKey(sub) in w.table && w.table[SubKey(sub)].state != Active }

  /**
   Between `w0` and `w`, the erase's last Apply turned `found` into `closed`:
   the user is erased there unless already back.
   */
  ghost predicate ClosedBy(w0: World, found: World, closed: World, w: World, m: Message) {
    && Advance(w0, found) && Advance(found, closed) && Advance(closed, w)
    && (UserErased(closed, m) <==> !Returned(found, m))
  }

  lemma ErasedUnlessBack(c: Config, w: World, m: Message, now: int)
    requires m.kind == EraseMsg
    ensures UserErased(Committed(c, w, ApplyOp(SubKey(m.sub), m), now), m) <==> !Returned(w, m)
  {}

  lemma AdvanceTrans(a: World, b: World, d: World)
    requires Advance(a, b) && Advance(b, d)
    ensures Advance(a, d)
  {
    forall k ensures CountsWrites(a, d, k) { assert CountsWrites(a, b, k) && CountsWrites(b, d, k); }
    forall k | k in a.table ensures k in d.table && NotAfter(a.table[k], d.table[k]) {
      BelowIsStrictOrder(a.table[k], b.table[k], d.table[k]);
    }
  }
}
