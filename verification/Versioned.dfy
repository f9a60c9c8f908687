/**
 Optimistic read-modify-write of one item (dynamo/conditional.go,
 dynamo/base.go buildUpdateExpr) by any number of writers. A read may be
 stale: it answers some earlier version of the item, or nothing at all.
 All writers go through UpdateVersioned, nobody deletes the item, and a write
 reported as refused or conflicting wrote nothing. Versions are unbounded.
 */
module Versioned {
  import opened Options

  /** A number, a NULL, or any other value. */
  datatype Value = N(number: int) | Null | Raw(text: string)

  type Item = map<string, Value>

  /** A changed attribute; None removes it. */
  type Updates = map<string, Option<Value>>

  const VERSION := "version"
  const EXPECTED := ":expected_version"
  const MAX_ATTEMPTS := 3

  function ApplyUpdates(item: Item, u: Updates): Item {
    map a | a in item.Keys + u.Keys && (a in u ==> u[a].Some?) :: if a in u then u[a].value else item[a]
  }

  // ---- The update expression ----------------------------------------------------

  /** SET #name = :value and REMOVE #name clauses, with the token maps that give them meaning. */
  datatype Expr = Expr(sets: set<(string, string)>, removes: set<string>, names: map<string, string>,
    values: map<string, Value>)

  predicate Sets(e: Expr, a: string, v: Value) {
    exists p | p in e.sets :: p.0 in e.names && e.names[p.0] == a && p.1 in e.values && e.values[p.1] == v
  }

  predicate Removes(e: Expr, a: string) {
    exists n | n in e.removes :: n in e.names && e.names[n] == a
  }

  /** What evaluating the expression does to each attribute. */
  ghost predicate Evaluates(e: Expr, item: Item, out: Item) {
    forall a ::
      && (forall v :: Sets(e, a, v) ==> a in out && out[a] == v)
      && (Removes(e, a) ==> a !in out)
      && ((forall v :: !Sets(e, a, v)) && !Removes(e, a) ==> Lookup(out, a) == Lookup(item, a))
  }

  /** The expression for the attributes in `done`. */
  ghost function ExprFor(u: Updates, done: set<string>): Expr
    requires done <= u.Keys
  {
    Expr(set a | a in done && u[a].Some? :: ("#" + a, ":" + a),
         set a | a in done && u[a].None? :: "#" + a,
         map k | k in (set a | a in done :: "#" + a) :: k[1..],
         map k | k in (set a | a in done && u[a].Some? :: ":" + a) :: u[k[1..]].value)
  }

  lemma ExprForOneMore(u: Updates, done: set<string>, a: string)
    requires done <= u.Keys && a in u && a !in done
    ensures var e, e' := ExprFor(u, done), ExprFor(u, done + {a});
            && e'.names == e.names["#" + a := a]
            && e'.removes == (if u[a].None? then e.removes + {"#" + a} else e.removes)
            && e'.sets == (if u[a].Some? then e.sets + {("#" + a, ":" + a)} else e.sets)
            && e'.values == (if u[a].Some? then e.values[":" + a := u[a].value] else e.values)
  {}

  method BuildUpdateExpr(u: Updates) returns (e: Expr)
    ensures Does(e, u) && forall item: Item :: Evaluates(e, item, ApplyUpdates(item, u))
    ensures Closed(e)
    ensures forall a :: ":" + a in e.values <==> a in u && u[a].Some?
    ensures forall a :: "#" + a in e.names <==> a in u
    ensures forall a :: a in u ==> e.names["#" + a] == a
  {
    e := Expr({}, {}, map[], map[]);
    var left := u.Keys;
    while left != {}
      invariant left <= u.Keys && e == ExprFor(u, u.Keys - left)
      decreases left
    {
      var a :| a in left;
      ExprForOneMore(u, u.Keys - left, a);
      assert u.Keys - (left - {a}) == (u.Keys - left) + {a};
      left := left - {a};
      e := e.(names := e.names["#" + a := a]);
      match u[a]
      case None => e := e.(removes := e.removes + {"#" + a});
      case Some(v) => e := e.(sets := e.sets + {("#" + a, ":" + a)}, values := e.values[":" + a := v]);
    }
    assert u.Keys - left == u.Keys;
    ExprMeaning(u);
    ExprTokens(u);
  }

  lemma ExprTokens(u: Updates)
    ensures var e := ExprFor(u, u.Keys);
            && Closed(e)
            && (forall a :: ":" + a in e.values <==> a in u && u[a].Some?)
            && (forall a :: "#" + a in e.names <==> a in u)
            && (forall a :: a in u ==> e.names["#" + a] == a)
  {
    forall a ensures ("#" + a)[1..] == a && (":" + a)[1..] == a { TokensBack(a); }
  }

  /** Every token a clause uses has a meaning. */
  predicate Closed(e: Expr) {
    (forall p :: p in e.sets ==> p.0 in e.names && p.1 in e.values) && (forall n :: n in e.removes ==> n in e.names)
  }

  // ---- The condition and its tokens ---------------------------------------------------

  /** "#name = :value", or attribute_not_exists(#name). */
  datatype Condition = Equal(name: string, value: string) | Missing(name: string)

  predicate Meets(cond: Condition, e: Expr, item: Item) {
    cond.name in e.names &&
    match cond
    case Equal(name, value) => value in e.values && Lookup(item, e.names[name]) == Some(e.values[value])
    case Missing(name) => e.names[name] !in item
  }

  predicate Disagree(names: map<string, string>, more: map<string, string>) {
    exists k :: k in names && k in more && names[k] != more[k]
  }

  /** Condition names join; the same token may not stand for two attributes. */
  method MergeNames(names: map<string, string>, more: map<string, string>) returns (ok: bool, out: map<string, string>)
    ensures ok <==> !Disagree(names, more)
    ensures ok ==> out == names + more
  {
    out := names;
    var left := more.Keys;
    while left != {}
      invariant left <= more.Keys && out == names + (map k | k in more && k !in left :: more[k])
      invariant forall k :: k in more && k !in left && k in names ==> names[k] == more[k]
      decreases left
    {
      var k :| k in left;
      if k in out && out[k] != more[k] { return false, out; }
      out, left := out[k := more[k]], left - {k};
    }
    ok := true;
  }

  /** Condition values join; a token already in use is refused, whatever it stands for. */
  method MergeValues(values: map<string, Value>, more: map<string, Value>) returns (ok: bool, out: map<string, Value>)
    ensures ok <==> values.Keys !! more.Keys
    ensures ok ==> out == values + more
  {
    out := values;
    var left := more.Keys;
    while left != {}
      invariant left <= more.Keys && out == values + (map k | k in more && k !in left :: more[k])
      invariant forall k :: k in more && k !in left ==> k !in values
      decreases left
    {
      var k :| k in left;
      if k in out { return false, out; }
      out, left := out[k := more[k]], left - {k};
    }
    ok := true;
  }

  /** Merging changes nothing about what the update does. */
  lemma MergeKeepsMeaning(e: Expr, condNames: map<string, string>, condValues: map<string, Value>, u: Updates)
    requires Closed(e) && !Disagree(e.names, condNames) && e.values.Keys !! condValues.Keys && Does(e, u)
    ensures Does(e.(names := e.names + condNames, values := e.values + condValues), u)
  {
    var e' := e.(names := e.names + condNames, values := e.values + condValues);
    forall a, v ensures Sets(e', a, v) <==> Sets(e, a, v) { SameSets(e, e', a, v); }
    forall a ensures Removes(e', a) <==> Removes(e, a) { SameRemoves(e, e', a); }
  }

  lemma SameSets(e: Expr, e': Expr, a: string, v: Value)
    requires e'.sets == e.sets && forall p :: p in e.sets ==> p.0 in e.names && p.1 in e.values
    requires forall k :: k in e.names ==> k in e'.names && e'.names[k] == e.names[k]
    requires forall k :: k in e.values ==> k in e'.values && e'.values[k] == e.values[k]
    ensures Sets(e', a, v) <==> Sets(e, a, v)
  {}

  lemma SameRemoves(e: Expr, e': Expr, a: string)
    requires e'.removes == e.removes && forall n :: n in e.removes ==> n in e.names
    requires forall k :: k in e.names ==> k in e'.names && e'.names[k] == e.names[k]
    ensures Removes(e', a) <==> Removes(e, a)
  {}

  lemma TokensBack(a: string)
    ensures ("#" + a)[1..] == a && (":" + a)[1..] == a
  {}

  lemma SetsMeans(u: Updates, a: string, v: Value)
    ensures Sets(ExprFor(u, u.Keys), a, v) <==> a in u && u[a] == Some(v)
  {
    var e := ExprFor(u, u.Keys);
    if Sets(e, a, v) {
      var p :| p in e.sets && p.0 in e.names && e.names[p.0] == a && p.1 in e.values && e.values[p.1] == v;
      var b :| b in u && u[b].Some? && p == ("#" + b, ":" + b);
      TokensBack(b);
    }
    if a in u && u[a] == Some(v) {
      TokensBack(a);
      assert ("#" + a, ":" + a) in e.sets;
    }
  }

  lemma RemovesMeans(u: Updates, a: string)
    ensures Removes(ExprFor(u, u.Keys), a) <==> a in u && u[a].None?
  {
    var e := ExprFor(u, u.Keys);
    if Removes(e, a) {
      var n :| n in e.removes && n in e.names && e.names[n] == a;
      var b :| b in u && u[b].None? && n == "#" + b;
      TokensBack(b);
    }
    if a in u && u[a].None? {
      TokensBack(a);
      assert "#" + a in e.removes;
    }
  }

  /** The clauses, with their tokens resolved, are the updates. */
  ghost predicate Does(e: Expr, u: Updates) {
    && (forall a, v :: Sets(e, a, v) <==> a in u && u[a] == Some(v))
    && (forall a :: Removes(e, a) <==> a in u && u[a].None?)
  }

  lemma ExprMeaning(u: Updates)
    ensures Does(ExprFor(u, u.Keys), u)
    ensures forall item: Item :: Evaluates(ExprFor(u, u.Keys), item, ApplyUpdates(item, u))
  {
    var e := ExprFor(u, u.Keys);
    forall a, v ensures Sets(e, a, v) <==> a in u && u[a] == Some(v) { SetsMeans(u, a, v); }
    forall a ensures Removes(e, a) <==> a in u && u[a].None? { RemovesMeans(u, a); }
    forall item: Item ensures Evaluates(e, item, ApplyUpdates(item, u)) {
      FollowsUpdates(e, u, item);
    }
  }

  lemma FollowsUpdates(e: Expr, u: Updates, item: Item)
    requires Does(e, u)
    ensures Evaluates(e, item, ApplyUpdates(item, u))
  {}

  // ---- One guarded write ------------------------------------------------------------

  /** What a caller's mutate function decides from the item it was shown. */
  datatype Mutated = Refused | Changes(u: Updates)

  type Mutate = Item -> Mutated

  /** The version as the SDK decodes it: absent and NULL read as 0, anything else that is no number is an error. */
  function VersionOf(item: Item): Option<int> {
    if VERSION !in item then Some(0)
    else match item[VERSION]
      case N(n) => Some(n)
      case Null => Some(0)
      case Raw(_) => None
  }

  predicate NullVersion(item: Item) { VERSION in item && item[VERSION] == Null }

  /** The changes UpdateVersioned asks ConditionalUpdate for after reading `seen`; None when it stops before. */
  function Intended(seen: Item, f: Mutate): Option<Updates> {
    match VersionOf(seen)
    case None => None
    case Some(v) =>
      match f(seen)
      case Refused => None
      case Changes(u) => if u == map[] then None else Some(u[VERSION := Some(N(v + 1))])
  }

  /** The version read, written out as a number. */
  function Expected(seen: Item): Value { N(if VersionOf(seen).Some? then VersionOf(seen).value else 0) }

  /** The condition UpdateVersioned guards them with, and that condition's names and values. */
  function Guard(seen: Item): (Condition, map<string, string>, map<string, Value>) {
    var names := map["#" + VERSION := VERSION];
    if VERSION in seen then (Equal("#" + VERSION, EXPECTED), names, map[EXPECTED := Expected(seen)])
    else (Missing("#" + VERSION), names, map[])
  }

  /** The item read has a version and the update sets an attribute called expected_version. */
  predicate Clashes(seen: Item, u: Updates) {
    VERSION in seen && "expected_version" in u && u["expected_version"].Some?
  }

  /** The changes that reach the table; none when the tokens clash. */
  function Sent(seen: Item, f: Mutate): Option<Updates> {
    var u := Intended(seen, f);
    if u.Some? && Clashes(seen, u.value) then None else u
  }

  /** The condition expression, evaluated on the stored item. */
  predicate Passes(stored: Item, seen: Item) {
    if VERSION in seen then Lookup(stored, VERSION) == Some(Expected(seen)) else VERSION !in stored
  }

  /** The mutation as one indivisible step of the item it is computed from; over a NULL version it is always refused. */
  function Mutation(item: Item, f: Mutate): Option<Item> {
    match Sent(item, f)
    case None => None
    case Some(u) => if NullVersion(item) then None else Some(ApplyUpdates(item, u))
  }

  /**
   What an update promises, said of the function and the two items alone: the
   version goes up by one, every other attribute is what the function set it to,
   gone if it removed it, and as before if it did not mention it.
   */
  ghost predicate Becomes(item: Item, f: Mutate, after: Item) {
    && f(item).Changes? && !NullVersion(item) && VersionOf(item).Some?
    && Lookup(after, VERSION) == Some(N(VersionOf(item).value + 1))
    && forall a :: a != VERSION ==> Lookup(after, a) == if a in f(item).u then f(item).u[a] else Lookup(item, a)
  }

  /**
   Nothing to apply: an unreadable or NULL version, an error or no changes from
   the function, or a clash of tokens.
   */
  predicate NothingToApply(item: Item, f: Mutate) {
    || VersionOf(item).None? || NullVersion(item) || f(item) == Refused || f(item) == Changes(map[])
    || Clashes(item, f(item).u)
  }

  lemma MutationMeans(item: Item, f: Mutate)
    ensures Mutation(item, f).None? <==> NothingToApply(item, f)
    ensures Mutation(item, f).Some? ==> Becomes(item, f, Mutation(item, f).value)
  {}

  // ---- Histories -----------------------------------------------------------------------

  /** Every version of the item, oldest first, and the mutation that led from each to the next. */
  ghost predicate Explained(hist: seq<Item>, log: seq<Mutate>) {
    && |hist| == |log| + 1
    && forall i :: 0 <= i < |log| ==> Mutation(hist[i], log[i]) == Some(hist[i + 1])
  }

  lemma {:induction false} VersionsCount(hist: seq<Item>, log: seq<Mutate>, i: nat)
    requires Explained(hist, log) && i <= |log|
    ensures i > 0 ==> VersionOf(hist[0]).Some? && VERSION in hist[i] && !NullVersion(hist[0]) && !NullVersion(hist[i])
    ensures VersionOf(hist[0]).Some? ==> VersionOf(hist[i]) == Some(VersionOf(hist[0]).value + i)
  {
    if i > 0 {
      VersionsCount(hist, log, i - 1);
      assert Mutation(hist[i - 1], log[i - 1]) == Some(hist[i]);
    }
  }

  /** A stale copy never passes the condition: only the newest version does, and that only if it is not NULL. */
  lemma OnlyNewestPasses(hist: seq<Item>, log: seq<Mutate>, i: nat)
    requires Explained(hist, log) && i <= |log| && VersionOf(hist[i]).Some?
    ensures Passes(hist[|log|], hist[i]) <==> i == |log| && !NullVersion(hist[i])
    ensures NullVersion(hist[i]) ==> log == []
  {
    VersionsCount(hist, log, i);
    VersionsCount(hist, log, |log|);
  }

  lemma Extends(hist: seq<Item>, log: seq<Mutate>, f: Mutate)
    requires Explained(hist, log) && Mutation(hist[|log|], f).Some?
    ensures Explained(hist + [Mutation(hist[|log|], f).value], log + [f])
  {}

  /** A write whose condition passes extends the history by the mutation of its last version. */
  lemma Commits(hist: seq<Item>, log: seq<Mutate>, i: nat, u: Updates, f: Mutate)
    requires Explained(hist, log) && i < |hist| && Sent(hist[i], f) == Some(u) && Passes(hist[|hist| - 1], hist[i])
    ensures Explained(hist + [ApplyUpdates(hist[|hist| - 1], u)], log + [f])
  {
    OnlyNewestPasses(hist, log, i);
    Extends(hist, log, f);
  }

  // ---- Many writers ----------------------------------------------------------------------

  /** A writer at rest may have just given up with a version conflict (Lost). */
  datatype Writer =
    | Resting
    | Lost
    | Getting(f: Mutate, attempt: nat, max: nat)
    | Writing(f: Mutate, attempt: nat, max: nat, seen: Item, tries: nat)

  datatype System = System(hist: seq<Item>, log: seq<Mutate>, writers: map<nat, Writer>)

  datatype Step =
    | Begin(p: nat, f: Mutate, maxAttempts: int)
    | Get(p: nat, i: nat)
    | GetNothing(p: nat)
    | Write(p: nat)
    | TransactionConflict(p: nat)
    | Fail(p: nat)

  function At(s: System, p: nat): Writer { if p in s.writers then s.writers[p] else Resting }

  function Goto(s: System, p: nat, q: Writer): Option<System> { Some(s.(writers := s.writers[p := q])) }

  function Attempts(maxAttempts: int): nat { if maxAttempts <= 0 then MAX_ATTEMPTS else maxAttempts }

  function Do(s: System, step: Step): Option<System>
    requires s.hist != []
  {
    var q := At(s, step.p);
    var stored := s.hist[|s.hist| - 1];
    match step
    case Begin(p, f, maxAttempts) =>
      if q.Resting? || q.Lost? then Goto(s, p, Getting(f, 1, Attempts(maxAttempts))) else None
    case Get(p, i) =>
      if !q.Getting? || i >= |s.hist| then None
      else if Sent(s.hist[i], q.f).None? then Goto(s, p, Resting)
      else Goto(s, p, Writing(q.f, q.attempt, q.max, s.hist[i], 1))
    case GetNothing(p) => if q.Getting? then Goto(s, p, Resting) else None
    case Write(p) =>
      if !q.Writing? || Sent(q.seen, q.f).None? then None
      else if Passes(stored, q.seen)
      then Goto(s.(hist := s.hist + [ApplyUpdates(stored, Sent(q.seen, q.f).value)], log := s.log + [q.f]), p, Resting)
      else Goto(s, p, if q.attempt < q.max then Getting(q.f, q.attempt + 1, q.max) else Lost)
    case TransactionConflict(p) =>
      if !q.Writing? then None
      else Goto(s, p, if q.tries < MAX_ATTEMPTS then q.(tries := q.tries + 1) else Resting)
    case Fail(p) => Goto(s, p, Resting)
  }

  ghost predicate WriterInv(hist: seq<Item>, q: Writer) {
    q.Writing? ==> Sent(q.seen, q.f).Some? && exists i :: 0 <= i < |hist| && hist[i] == q.seen
  }

  ghost predicate Inv(s: System) {
    Explained(s.hist, s.log) && forall p :: p in s.writers ==> WriterInv(s.hist, s.writers[p])
  }

  lemma StepKeepsInv(s: System, step: Step)
    requires Inv(s) && Do(s, step).Some?
    ensures Inv(Do(s, step).value)
    ensures s.hist <= Do(s, step).value.hist && s.log <= Do(s, step).value.log
  {
    var s' := Do(s, step).value;
    var q := At(s, step.p);
    var stored := s.hist[|s.hist| - 1];
    if step.Write? && Passes(stored, q.seen) {
      var i :| 0 <= i < |s.hist| && s.hist[i] == q.seen;
      OnlyNewestPasses(s.hist, s.log, i);
      Extends(s.hist, s.log, q.f);
    }
    if step.Get? && s'.writers[step.p].Writing? { assert s.hist[step.i] == s'.writers[step.p].seen; }
    forall p | p in s'.writers ensures WriterInv(s'.hist, s'.writers[p]) {
      var q' := s'.writers[p];
      if q'.Writing? && p in s.writers && s.writers[p].Writing? {
        assert WriterInv(s.hist, s.writers[p]);
        var i :| 0 <= i < |s.hist| && s.hist[i] == s.writers[p].seen;
        assert s'.hist[i] == q'.seen;
      }
    }
  }

  function Run(initial: Item, steps: seq<Step>): (r: Option<System>)
    ensures r.Some? ==> r.value.hist != []
  {
    if steps == [] then Some(System([initial], [], map[]))
    else
      var before := Run(initial, steps[..|steps| - 1]);
      if before.None? then None else Do(before.value, steps[|steps| - 1])
  }

  lemma {:induction false} RunKeepsInv(initial: Item, steps: seq<Step>)
    requires Run(initial, steps).Some?
    ensures Inv(Run(initial, steps).value) && Run(initial, steps).value.hist[0] == initial
  {
    if steps != [] {
      RunKeepsInv(initial, steps[..|steps| - 1]);
      StepKeepsInv(Run(initial, steps[..|steps| - 1]).value, steps[|steps| - 1]);
    }
  }

  /** The item after the mutations of `log`, each applied to the item the one before left. */
  function Fold(item: Item, log: seq<Mutate>): Option<Item> {
    if log == [] then Some(item)
    else
      var before := Fold(item, log[..|log| - 1]);
      if before.None? then None else Mutation(before.value, log[|log| - 1])
  }

  lemma {:induction false} ExplainedIsFold(hist: seq<Item>, log: seq<Mutate>)
    requires Explained(hist, log)
    ensures Fold(hist[0], log) == Some(hist[|log|])
  {
    if log != [] {
      ExplainedIsFold(hist[..|log|], log[..|log| - 1]);
    }
  }

  /** The item is the fold of the applied mutations, and its version counts them. */
  ghost predicate NothingLost(hist: seq<Item>, log: seq<Mutate>)
    requires hist != []
  {
    var initial, stored := hist[0], hist[|hist| - 1];
    && Fold(initial, log) == Some(stored)
    && (VersionOf(initial).Some? ==> VersionOf(stored) == Some(VersionOf(initial).value + |log|))
    && (VersionOf(initial).None? ==> log == [])
    && |hist| == |log| + 1 && forall i :: 0 <= i < |log| ==> Led(hist, log, i)
  }

  /** The i-th mutation made of the i-th version the next one. */
  ghost predicate Led(hist: seq<Item>, log: seq<Mutate>, i: nat)
    requires i < |log| < |hist|
  {
    Becomes(hist[i], log[i], hist[i + 1])
  }

  lemma ExplainedMeansLed(hist: seq<Item>, log: seq<Mutate>, i: nat)
    requires Explained(hist, log) && i < |log|
    ensures Led(hist, log, i)
  {
    MutationMeans(hist[i], log[i]);
  }

  lemma ExplainedLosesNothing(hist: seq<Item>, log: seq<Mutate>)
    requires Explained(hist, log)
    ensures NothingLost(hist, log)
  {
    ExplainedIsFold(hist, log);
    VersionsCount(hist, log, |log|);
    forall i | 0 <= i < |log| ensures Led(hist, log, i) { ExplainedMeansLed(hist, log, i); }
  }

  /**
   However the writers interleave, whatever they read and however often they
   collide, no update is lost: the stored item is the fold of the applied
   mutations in commit order, and its version counts them.
   */
  lemma NoLostUpdates(initial: Item, steps: seq<Step>)
    requires Run(initial, steps).Some?
    ensures var s := Run(initial, steps).value; s.hist[0] == initial && NothingLost(s.hist, s.log)
  {
    RunKeepsInv(initial, steps);
    var s := Run(initial, steps).value;
    ExplainedLosesNothing(s.hist, s.log);
  }

  // ---- Losing the race to nobody -----------------------------------------------------------

  /** After `start`, writer 0 alone acts, and reads the first version every time. */
  ghost predicate Alone(start: seq<Step>, steps: seq<Step>) {
    start <= steps && forall k :: |start| <= k < |steps| ==> steps[k] == Get(0, 0) || steps[k] == Write(0)
  }

  lemma RunMore(initial: Item, steps: seq<Step>, step: Step)
    requires Run(initial, steps).Some?
    ensures Run(initial, steps + [step]) == Do(Run(initial, steps).value, step)
  {
    assert (steps + [step])[..|steps|] == steps;
  }

  lemma RunTwoMore(initial: Item, steps: seq<Step>, s: System, a: Step, s1: System, b: Step, s2: System)
    requires Run(initial, steps) == Some(s) && s.hist != [] && Do(s, a) == Some(s1)
    requires s1.hist != [] && Do(s1, b) == Some(s2)
    ensures Run(initial, steps + [a, b]) == Some(s2)
  {
    RunMore(initial, steps, a);
    RunMore(initial, steps + [a], b);
    assert steps + [a, b] == steps + [a] + [b];
  }

  /** Writer 0 holds its n-th attempt (or has given up), and what it reads never passes. */
  ghost predicate Trailing(s: System, initial: Item, f: Mutate, log: seq<Mutate>, max: nat, n: nat) {
    && s.hist != [] && s.hist[0] == initial && s.log == log && !Passes(s.hist[|s.hist| - 1], initial)
    && At(s, 0) == if n < max then Getting(f, n + 1, max) else Lost
  }

  lemma VainTry(s: System, initial: Item, f: Mutate, log: seq<Mutate>, max: nat, n: nat)
    returns (s1: System, s2: System)
    requires Trailing(s, initial, f, log, max, n) && n < max && Sent(initial, f).Some?
    ensures s1.hist != [] && Do(s, Get(0, 0)) == Some(s1) && Do(s1, Write(0)) == Some(s2)
    ensures Trailing(s2, initial, f, log, max, n + 1)
  {
    s1 := Do(s, Get(0, 0)).value;
    s2 := Do(s1, Write(0)).value;
  }

  /** After these steps, writer 0 is on attempt n and trails. */
  ghost predicate Trails(initial: Item, steps: seq<Step>, f: Mutate, log: seq<Mutate>, max: nat, n: nat) {
    Run(initial, steps).Some? && Trailing(Run(initial, steps).value, initial, f, log, max, n)
  }

  lemma VainTryRun(initial: Item, start: seq<Step>, steps: seq<Step>, f: Mutate, log: seq<Mutate>, max: nat, n: nat)
    returns (more: seq<Step>)
    requires Trails(initial, steps, f, log, max, n) && n < max && Sent(initial, f).Some? && Alone(start, steps)
    ensures Trails(initial, more, f, log, max, n + 1) && Alone(start, more)
  {
    var s := Run(initial, steps).value;
    var s1, s2 := VainTry(s, initial, f, log, max, n);
    RunTwoMore(initial, steps, s, Get(0, 0), s1, Write(0), s2);
    more := steps + [Get(0, 0), Write(0)];
  }

  lemma VainTriesLose(initial: Item, start: seq<Step>, f: Mutate, log: seq<Mutate>, max: nat) returns (steps: seq<Step>)
    requires Trails(initial, start, f, log, max, 0) && Sent(initial, f).Some?
    ensures Trails(initial, steps, f, log, max, max) && Alone(start, steps)
  {
    steps := start;
    for n := 0 to max
      invariant Trails(initial, steps, f, log, max, n) && Alone(start, steps)
    {
      steps := VainTryRun(initial, start, steps, f, log, max, n);
    }
  }

  /** Writer 1 commits; then writer 0 begins. */
  function StaleStart(f: Mutate, g: Mutate, maxAttempts: int): seq<Step> {
    [Begin(1, g, 1), Get(1, 0), Write(1), Begin(0, f, maxAttempts)]
  }

  lemma StaleStartRuns(initial: Item, f: Mutate, g: Mutate, maxAttempts: int)
    requires Sent(initial, f).Some? && Mutation(initial, g).Some?
    ensures Trails(initial, StaleStart(f, g, maxAttempts), f, [g], Attempts(maxAttempts), 0)
  {
    var s0 := System([initial], [], map[]);
    OnlyNewestPasses([initial], [], 0);
    var s1 := Do(s0, Begin(1, g, 1)).value;
    var s2 := Do(s1, Get(1, 0)).value;
    var s3 := Do(s2, Write(1)).value;
    var s := Do(s3, Begin(0, f, maxAttempts)).value;
    RunTwoMore(initial, [], s0, Begin(1, g, 1), s1, Get(1, 0), s2);
    RunTwoMore(initial, [] + [Begin(1, g, 1), Get(1, 0)], s2, Write(1), s3, Begin(0, f, maxAttempts), s);
    assert [] + [Begin(1, g, 1), Get(1, 0)] + [Write(1), Begin(0, f, maxAttempts)] == StaleStart(f, g, maxAttempts);
    Extends([initial], [], g);
    OnlyNewestPasses(s.hist, s.log, 0);
  }

  /**
   The run `steps` goes on from `start`, where writer 0 began, and ends with its
   giving up; nobody wrote in between.
   */
  ghost predicate LostAlone(initial: Item, start: seq<Step>, steps: seq<Step>, f: Mutate, maxAttempts: int) {
    && Run(initial, start).Some? && Run(initial, steps).Some? && Alone(start, steps)
    && At(Run(initial, start).value, 0) == Getting(f, 1, Attempts(maxAttempts))
    && At(Run(initial, steps).value, 0) == Lost
    && Run(initial, steps).value.log == Run(initial, start).value.log
  }

  /**
   ErrVersionConflict is documented as every attempt having lost the race to
   another writer. Stale reads alone bring it about, however many attempts are
   allowed: nobody writes after writer 0 begins.
   */
  lemma ConflictWithoutRace(initial: Item, f: Mutate, g: Mutate, maxAttempts: int) returns (steps: seq<Step>)
    requires Sent(initial, f).Some? && Mutation(initial, g).Some?
    ensures LostAlone(initial, StaleStart(f, g, maxAttempts), steps, f, maxAttempts)
  {
    StaleStartRuns(initial, f, g, maxAttempts);
    steps := VainTriesLose(initial, StaleStart(f, g, maxAttempts), f, [g], Attempts(maxAttempts));
  }

  /** And so does a version that is NULL, with fresh reads and no other writer at all. */
  lemma NullNeverPasses(initial: Item, f: Mutate, maxAttempts: int) returns (steps: seq<Step>)
    requires NullVersion(initial)
    requires f(initial).Changes? && f(initial).u != map[] && !Clashes(initial, f(initial).u)
    ensures LostAlone(initial, [Begin(0, f, maxAttempts)], steps, f, maxAttempts)
  {
    var start := [Begin(0, f, maxAttempts)];
    assert [] + start == start;
    RunMore(initial, [], Begin(0, f, maxAttempts));
    OnlyNewestPasses([initial], [], 0);
    steps := VainTriesLose(initial, start, f, [], Attempts(maxAttempts));
  }

  // ---- The methods themselves -----------------------------------------------------------

  datatype Outcome = Applied | Unchanged | NotFound | BadVersion | Rejected | TokenClash | Conflict | Unavailable

  /** What a read answered: a version of the item (and which was the newest then), nothing, or an error. */
  datatype Read = Version(index: nat, newest: nat) | NothingThere | ReadFailed

  /** What becomes of the n-th read: it fails, finds nothing, or answers a version so far behind the newest. */
  datatype ReadFate = ReadBreaks | ReadsNothing | ReadsBehind(lag: nat)

  /** And of the n-th write: it runs, meets a transaction, or fails. */
  datatype WriteFate = WriteRuns | MeetsTransaction | WriteBreaks

  function ReadFateOf(f: nat -> ReadFate, n: nat): ReadFate { f(n) }

  function WriteFateOf(f: nat -> WriteFate, n: nat): WriteFate { f(n) }

  function Answer(fate: ReadFate, newest: nat): Read {
    match fate
    case ReadBreaks => ReadFailed
    case ReadsNothing => NothingThere
    case ReadsBehind(lag) => Version(if lag <= newest then newest - lag else 0, newest)
  }

  /**
   These are the answers to the reads numbered from `first` on, made while the
   newest version was between lo and hi.
   */
  ghost predicate Answered(tried: seq<Read>, fates: nat -> ReadFate, first: nat, lo: nat, hi: nat) {
    forall k :: 0 <= k < |tried| ==>
      && tried[k] == Answer(ReadFateOf(fates, first + k), if tried[k].Version? then tried[k].newest else 0)
      && (tried[k].Version? ==> lo <= tried[k].newest <= hi)
  }

  /** How many of these reads were not stale. */
  function FreshReads(tried: seq<Read>): nat {
    if tried == [] then 0
    else
      var last := tried[|tried| - 1];
      FreshReads(tried[..|tried| - 1]) + (if last.Version? && last.index == last.newest then 1 else 0)
  }

  /** The last write since number `since` was not evaluated. */
  predicate WriteFailed(fates: nat -> WriteFate, since: nat, puts: nat) {
    since < puts && WriteFateOf(fates, puts - 1) != WriteRuns
  }

  /** This read showed this item. */
  predicate Shows(read: Read, hist: seq<Item>, seen: Item) {
    read.Version? && read.index < |hist| && hist[read.index] == seen
  }

  /** Each outcome has its reason: what the last read showed, or a write that failed. */
  predicate Accounted(r: Outcome, read: Read, hist: seq<Item>, seen: Item, f: Mutate, writeFailed: bool) {
    match r
    case NotFound => read == NothingThere
    case Unavailable => read == ReadFailed || writeFailed
    case BadVersion => Shows(read, hist, seen) && VersionOf(seen).None? && VersionOf(hist[0]).None?
    case Rejected => Shows(read, hist, seen) && f(seen) == Refused
    case Unchanged => Shows(read, hist, seen) && f(seen) == Changes(map[])
    case TokenClash => Shows(read, hist, seen) && f(seen).Changes? && Clashes(seen, f(seen).u)
    case Applied => Shows(read, hist, seen) && Sent(seen, f).Some?
    case Conflict => Shows(read, hist, seen) && Sent(seen, f).Some?
  }

  /** Versions read that cannot pass: no longer the newest, which is number `newest`, or NULL. */
  predicate AllRefused(tried: seq<Read>, newest: nat, isNull: bool) {
    forall k :: 0 <= k < |tried| ==> tried[k].Version? && (tried[k].index < newest || isNull)
  }

  /**
   The expression sent to the table: the update's tokens and the condition's.
   They clash exactly when the condition needs :expected_version and the update
   sets that attribute; otherwise the expression does what the update asks, and
   the condition is met by the items that still have the version read.
   */
  method Prepare(
    u: Updates, cond: Condition, condNames: map<string, string>, condValues: map<string, Value>, ghost seen: Item)
    returns (clash: bool, expr: Expr)
    requires (cond, condNames, condValues) == Guard(seen) && VERSION in u
    ensures clash <==> Clashes(seen, u)
    ensures !clash ==> Does(expr, u)
    ensures !clash ==> forall item: Item :: Meets(cond, expr, item) <==> Passes(item, seen)
  {
    expr := BuildUpdateExpr(u);
    GuardTokens();
    var ok, names := MergeNames(expr.names, condNames);
    assert ok;
    var free, values := MergeValues(expr.values, condValues);
    if !ok || !free { return true, expr; }
    MergeKeepsMeaning(expr, condNames, condValues, u);
    return false, expr.(names := names, values := values);
  }

  class Row {
    var hist: seq<Item>
    var log: seq<Mutate>
    /** How many of the applied mutations came through this process. */
    var mine: nat
    /** How many reads and writes this process has made, and what becomes of each. */
    var gets: nat
    var puts: nat
    const readFates: nat -> ReadFate
    const writeFates: nat -> WriteFate
    /** The mutations other processes may be running. */
    const pool: seq<Mutate>

    constructor (initial: Item, pool: seq<Mutate>, readFates: nat -> ReadFate, writeFates: nat -> WriteFate)
      ensures Valid() && hist == [initial] && log == [] && mine == 0 && gets == 0 && puts == 0
      ensures this.pool == pool && this.readFates == readFates && this.writeFates == writeFates
    {
      this.pool, this.readFates, this.writeFates := pool, readFates, writeFates;
      hist, log, mine, gets, puts := [initial], [], 0, 0, 0;
    }

    ghost predicate Valid() reads this { Explained(hist, log) }

    twostate predicate Grew() reads this { old(hist) <= hist && old(log) <= log }

    method Others()
      requires Valid()
      modifies this`hist, this`log
      ensures Valid() && Grew()
    {
      var picks: seq<int> := *;
      for i := 0 to |picks|
        invariant Valid() && Grew()
      {
        if 0 <= picks[i] < |pool| {
          var f := pool[picks[i]];
          var next := Mutation(hist[|log|], f);
          if next.Some? {
            Extends(hist, log, f);
            hist, log := hist + [next.value], log + [f];
          }
        }
      }
    }

    /** An eventually consistent read: any version so far, or a failure, or nothing yet. */
    method GetItem() returns (r: Read)
      requires Valid()
      modifies this`gets
      ensures gets == old(gets) + 1 && r == Answer(ReadFateOf(readFates, old(gets)), |log|)
    {
      r := Answer(ReadFateOf(readFates, gets), |log|);
      gets := gets + 1;
    }

    /** The stored item after a write whose condition held on it. */
    method Write(expr: Expr, u: Updates, seen: Item, f: Mutate, ghost i: nat)
      requires Valid() && i < |hist| && hist[i] == seen && Sent(seen, f) == Some(u)
      requires Passes(hist[|hist| - 1], seen)
      requires Does(expr, u)
      modifies this`hist, this`log, this`mine
      ensures Valid() && hist[..|hist| - 1] == old(hist) && log == old(log) + [f] && mine == old(mine) + 1
      ensures Evaluates(expr, old(hist)[|old(hist)| - 1], hist[|hist| - 1])
    {
      var next := ApplyUpdates(hist[|hist| - 1], u);
      Commits(hist, log, i, u, f);
      FollowsUpdates(expr, u, hist[|hist| - 1]);
      hist, log, mine := hist + [next], log + [f], mine + 1;
    }

    /**
     One conditional UpdateItem, repeated only while it collides with a
     transaction. It fails before the table is asked exactly when the update
     sets expected_version and the condition needs that token, and with an
     error exactly when its last write was not evaluated; it is refused only if
     the version read is no longer the newest, or NULL.
     */
    method ConditionalUpdate(
      u: Updates, cond: Condition, condNames: map<string, string>, condValues: map<string, Value>,
      seen: Item, f: Mutate, ghost i: nat)
      returns (applied: bool, err: Outcome)
      requires Valid() && i < |hist| && hist[i] == seen && Intended(seen, f) == Some(u)
      requires (cond, condNames, condValues) == Guard(seen)
      modifies this`hist, this`log, this`mine, this`puts
      ensures Valid() && Grew() && old(puts) <= puts <= old(puts) + MAX_ATTEMPTS
      ensures applied ==> err == Applied && |old(log)| < |log| && log[|log| - 1] == f && mine == old(mine) + 1
      ensures !applied ==> err in {Conflict, TokenClash, Unavailable} && mine == old(mine)
      ensures err == TokenClash <==> Clashes(seen, u)
      ensures err == TokenClash <==> puts == old(puts)
      ensures err == Conflict ==> i < |log| || NullVersion(seen)
      ensures err == Unavailable <==> WriteFailed(writeFates, old(puts), puts)
    {
      var clash, expr := Prepare(u, cond, condNames, condValues, seen);
      if clash { return false, TokenClash; }
      applied, err := Submit(expr, cond, u, seen, f, i);
    }

    /** The UpdateItem call itself. */
    method Submit(expr: Expr, cond: Condition, u: Updates, seen: Item, f: Mutate, ghost i: nat)
      returns (applied: bool, err: Outcome)
      requires Valid() && i < |hist| && hist[i] == seen && Sent(seen, f) == Some(u) && Does(expr, u)
      requires forall item: Item :: Meets(cond, expr, item) <==> Passes(item, seen)
      modifies this`hist, this`log, this`mine, this`puts
      ensures Valid() && Grew() && old(puts) < puts <= old(puts) + MAX_ATTEMPTS
      ensures applied ==> err == Applied && |old(log)| < |log| && log[|log| - 1] == f && mine == old(mine) + 1
      ensures !applied ==> err in {Conflict, Unavailable} && mine == old(mine)
      ensures err == Conflict ==> i < |log| || NullVersion(seen)
      ensures err == Unavailable <==> WriteFailed(writeFates, old(puts), puts)
    {
      var attempt := 1;
      while true
        invariant attempt <= MAX_ATTEMPTS && Valid() && Grew() && mine == old(mine) && puts == old(puts) + attempt - 1
        decreases MAX_ATTEMPTS - attempt
      {
        var r := TryWrite(expr, cond, u, seen, f, i);
        if r.Some? { return r.value == Applied, r.value; }
        if attempt >= MAX_ATTEMPTS { return false, Unavailable; }
        attempt := attempt + 1;
      }
    }

    /** One try, others acting before it; None when it met a transaction. */
    method TryWrite(expr: Expr, cond: Condition, u: Updates, seen: Item, f: Mutate, ghost i: nat)
      returns (r: Option<Outcome>)
      requires Valid() && i < |hist| && hist[i] == seen && Sent(seen, f) == Some(u) && Does(expr, u)
      requires forall item: Item :: Meets(cond, expr, item) <==> Passes(item, seen)
      modifies this`hist, this`log, this`mine, this`puts
      ensures Valid() && Grew() && puts == old(puts) + 1
      ensures r == None <==> WriteFateOf(writeFates, old(puts)) == MeetsTransaction
      ensures r == Some(Unavailable) <==> WriteFateOf(writeFates, old(puts)) == WriteBreaks
      ensures r.Some? ==> r.value in {Applied, Conflict, Unavailable}
      ensures r == Some(Applied) ==> |old(log)| < |log| && log[|log| - 1] == f && mine == old(mine) + 1
      ensures r != Some(Applied) ==> mine == old(mine)
      ensures r == Some(Conflict) ==> i < |log| || NullVersion(seen)
    {
      Others();
      var fate := WriteFateOf(writeFates, puts);
      puts := puts + 1;
      if fate == MeetsTransaction { return None; }
      if fate == WriteBreaks { return Some(Unavailable); }
      OnlyNewestPasses(hist, log, i);
      if !Meets(cond, expr, hist[|hist| - 1]) { return Some(Conflict); }
      Write(expr, u, seen, f, i);
      return Some(Applied);
    }

    /** One attempt: read, mutate, write guarded by the version read. Each outcome has its reason. */
    method Attempt(f: Mutate) returns (r: Outcome, ghost read: Read, ghost seen: Item)
      requires Valid()
      modifies this
      ensures Valid() && Grew() && gets == old(gets) + 1 && old(puts) <= puts
      ensures read == Answer(ReadFateOf(readFates, old(gets)), |old(log)|)
      ensures r == Applied ==> |old(log)| < |log| && log[|log| - 1] == f && mine == old(mine) + 1
      ensures r != Applied ==> mine == old(mine)
      ensures Accounted(r, read, hist, seen, f, WriteFailed(writeFates, old(puts), puts))
      ensures r == Conflict ==> read.index < |log| || NullVersion(hist[0])
      ensures r == Conflict && !NullVersion(hist[0]) && read.index == read.newest ==> |old(log)| < |log|
    {
      var got := GetItem();
      read, seen := got, map[];
      if got.ReadFailed? { return Unavailable, read, seen; }
      if got.NothingThere? { return NotFound, read, seen; }
      var item := hist[got.index];
      seen := item;
      VersionsCount(hist, log, got.index);
      if VersionOf(item).None? { return BadVersion, read, seen; }
      var changes := f(item);
      if changes.Refused? { return Rejected, read, seen; }
      if changes.u == map[] { return Unchanged, read, seen; }
      OnlyNewestPasses(hist, log, got.index);
      var (cond, condNames, condValues) := Guard(item);
      var applied;
      applied, r := ConditionalUpdate(Intended(item, f).value, cond, condNames, condValues, item, f, got.index);
    }

    /**
     Attempts until one is not refused by its condition. Giving up takes all of
     them, each refused over a version no longer the newest, or NULL. Unless it
     is NULL, a fresh read that was refused means someone wrote after it: with
     fresh reads only, others won the race as often as there were attempts.
     */
    method UpdateVersioned(f: Mutate, maxAttempts: int) returns (r: Outcome, ghost tried: seq<Read>, ghost seen: Item)
      requires Valid()
      modifies this
      ensures Valid() && Grew() && gets == old(gets) + |tried| && 1 <= |tried| <= Attempts(maxAttempts)
      ensures Answered(tried, readFates, old(gets), |old(log)|, |log|)
      ensures r == Applied ==> |old(log)| < |log| && log[|log| - 1] == f && mine == old(mine) + 1
      ensures r == Applied ==> Becomes(hist[|hist| - 2], f, hist[|hist| - 1])
      ensures r != Applied ==> mine == old(mine)
      ensures Accounted(r, tried[|tried| - 1], hist, seen, f, WriteFailed(writeFates, old(puts), puts))
      ensures r == Conflict ==> |tried| == Attempts(maxAttempts) && AllRefused(tried, |log|, NullVersion(hist[0]))
      ensures r == Conflict && !NullVersion(hist[0]) ==> |log| >= |old(log)| + FreshReads(tried)
    {
      var attempt := 1;
      tried := [];
      while true
        invariant 1 <= attempt <= Attempts(maxAttempts) && Valid() && Grew() && mine == old(mine) && old(puts) <= puts
        invariant gets == old(gets) + |tried| && |tried| == attempt - 1
        invariant InVain(tried, readFates, old(gets), |old(log)|, |log|, NullVersion(hist[0]))
        decreases Attempts(maxAttempts) - attempt
      {
        ghost var read: Read;
        ghost var n := |log|;
        r, read, seen := Attempt(f);
        OneMoreRead(tried, read, readFates, old(gets), |old(log)|, n, |log|, NullVersion(hist[0]));
        tried := tried + [read];
        if r == Applied { MutationMeans(hist[|log| - 1], f); }
        if r != Conflict || attempt == Attempts(maxAttempts) { return; }
        attempt := attempt + 1;
      }
    }
  }

  /** Reads that all ended in a refusal, with as many commits by others as were fresh, unless the version is NULL. */
  ghost predicate InVain(tried: seq<Read>, fates: nat -> ReadFate, first: nat, lo: nat, hi: nat, isNull: bool) {
    Answered(tried, fates, first, lo, hi) && AllRefused(tried, hi, isNull) && (isNull || hi >= lo + FreshReads(tried))
  }

  lemma OneMoreRead(
    tried: seq<Read>, r: Read, fates: nat -> ReadFate, first: nat, lo: nat, n: nat, hi: nat, isNull: bool)
    requires InVain(tried, fates, first, lo, n, isNull) && lo <= n <= hi &&
              r == Answer(ReadFateOf(fates, first + |tried|), n)
    ensures Answered(tried + [r], fates, first, lo, hi)
    ensures r.Version? && (r.index < hi || isNull) && (r.index == r.newest && !isNull ==> n < hi) ==>
              InVain(tried + [r], fates, first, lo, hi, isNull)
  {
    assert (tried + [r])[..|tried|] == tried;
  }

  /** Where the guard's tokens could meet the update's. */
  lemma GuardTokens()
    ensures forall a :: ":" + a == EXPECTED <==> a == "expected_version"
  {
    assert EXPECTED == ":" + "expected_version";
    forall a ensures ":" + a == EXPECTED <==> a == "expected_version" { TokensBack(a); TokensBack("expected_version"); }
  }
}
