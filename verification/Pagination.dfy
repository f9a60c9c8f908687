/**
 A filtered Query over one DynamoDB partition (dynamo/base.go, queryFiltered).
 The raw Query applies its limit to the items it evaluates, before the filter,
 may stop anywhere, and may answer a continuation key even at the very end.
 The loop above it must still list exactly the matching items.
 */
module Pagination {
  import opened Options
  import opened Decimal

  /** An attribute value: a scalar (the only kind a key may have) or a document. */
  datatype Attr = Scalar(text: string) | Doc(parts: map<string, string>)

  type Item = map<string, Attr>

  /** One partition in query order, its key schema, and the filter. */
  datatype Source = Source(items: seq<Item>, keyNames: set<string>, matches: Item -> bool)

  function KeyOf(item: Item, names: set<string>): Item {
    map k | k in item && k in names :: item[k]
  }

  /** Every item has every key attribute, and keys are scalars. */
  ghost predicate KeysPresent(src: Source) {
    && (forall i :: 0 <= i < |src.items| ==> src.keyNames <= src.items[i].Keys)
    && (forall i, k :: 0 <= i < |src.items| && k in src.keyNames ==> src.items[i][k].Scalar?)
  }

  ghost predicate KeysDistinct(src: Source) {
    forall i, j :: 0 <= i < j < |src.items| ==> !SameKey(src, i, j)
  }

  predicate SameKey(src: Source, i: nat, j: nat)
    requires i < |src.items| && j < |src.items|
  {
    KeyOf(src.items[i], src.keyNames) == KeyOf(src.items[j], src.keyNames)
  }

  ghost predicate WellFormed(src: Source) { src.keyNames != {} && KeysPresent(src) && KeysDistinct(src) }

  function Filter(s: seq<Item>, matches: Item -> bool): seq<Item> {
    if s == [] then []
    else
      var init, last := Filter(s[..|s| - 1], matches), s[|s| - 1];
      if matches(last) then init + [last] else init
  }

  // ---- Positions and continuation keys --------------------------------------

  /** `key` points just before position `pos`: everything earlier is already listed. */
  ghost predicate PointsAt(src: Source, key: Option<Item>, pos: nat) {
    match key
    case None => pos == 0
    case Some(k) => 0 < pos <= |src.items| && k == KeyOf(src.items[pos - 1], src.keyNames)
  }

  // ---- Projections ------------------------------------------------------------

  /** One path of a projection: an attribute name or alias, and what is picked inside it ("" for all). */
  datatype Path = Path(token: string, rest: string)

  /** The query input queryFiltered updates between calls. No paths means no projection. */
  class QueryInput {
    var startKey: Option<Item>
    var paths: Option<seq<Path>>
    var names: map<string, string>

    constructor (startKey: Option<Item>, paths: Option<seq<Path>>, names: map<string, string>)
      ensures this.startKey == startKey && this.paths == paths && this.names == names
    {
      this.startKey, this.paths, this.names := startKey, paths, names;
    }
  }

  function Resolve(names: map<string, string>, token: string): string {
    if token in names then names[token] else token
  }

  predicate Selects(paths: seq<Path>, names: map<string, string>, attr: string, rest: string) {
    exists p | p in paths :: Resolve(names, p.token) == attr && p.rest == rest
  }

  function Piece(v: Attr, paths: seq<Path>, names: map<string, string>, attr: string): Option<Attr> {
    if Selects(paths, names, attr, "") then Some(v)
    else if v.Scalar? then None
    else
      var parts := map k | k in v.parts && Selects(paths, names, attr, k) :: v.parts[k];
      if parts == map[] then None else Some(Doc(parts))
  }

  /** What DynamoDB returns of a stored item. */
  function Project(item: Item, paths: Option<seq<Path>>, names: map<string, string>): Item {
    if paths.None? then item
    else map a | a in item && Piece(item[a], paths.value, names, a).Some? :: Piece(item[a], paths.value, names, a).value
  }

  function ProjectAll(s: seq<Item>, paths: Option<seq<Path>>, names: map<string, string>): seq<Item> {
    seq(|s|, i requires 0 <= i < |s| => Project(s[i], paths, names))
  }

  /** The attribute names a projection mentions at top level. */
  ghost function Mentioned(paths: seq<Path>, names: map<string, string>): set<string> {
    set p | p in paths :: Resolve(names, p.token)
  }

  method ProjectedNames(input: QueryInput) returns (r: Option<set<string>>)
    ensures r.None? <==> input.paths.None?
    ensures r.Some? ==> r.value == Mentioned(input.paths.value, input.names)
  {
    if input.paths.None? { return None; }
    var paths := input.paths.value;
    var out: set<string> := {};
    for i := 0 to |paths|
      invariant forall a :: a in out <==> exists j :: 0 <= j < i && Resolve(input.names, paths[j].token) == a
    {
      out := out + {Resolve(input.names, paths[i].token)};
    }
    return Some(out);
  }

  const ALIAS := "#__ctech_cursor_key"

  /** The aliases injected for key names live in a namespace of their own. */
  predicate IsAlias(token: string) { ALIAS <= token }

  predicate UsesAlias(paths: Option<seq<Path>>) {
    paths.Some? && exists p | p in paths.value :: IsAlias(p.token)
  }

  /** A key attribute the projection reaches only through a document path. */
  ghost predicate NestedKey(src: Source, paths: Option<seq<Path>>, names: map<string, string>) {
    && paths.Some?
    && exists k :: k in src.keyNames && k in Mentioned(paths.value, names) && !Selects(paths.value, names, k, "")
  }

  /** The key attributes the caller's projection leaves out. */
  function Extra(keyNames: seq<string>, caller: Option<set<string>>): set<string> {
    if caller.None? then {} else set k | k in keyNames && k !in caller.value
  }

  /** The second projection shows what the first does, plus the attributes in `extra`. */
  ghost predicate Widens(
    paths: seq<Path>, names: map<string, string>, paths': seq<Path>, names': map<string, string>, extra: set<string>)
  {
    forall a, rest :: Selects(paths', names', a, rest) <==> Selects(paths, names, a, rest) || (rest == "" && a in extra)
  }

  function Alias(i: nat): string { ALIAS + Digits(i) }

  lemma AliasInjective(i: nat, j: nat)
    ensures IsAlias(Alias(i))
    ensures Alias(i) == Alias(j) ==> i == j
  {
    assert Alias(i)[|ALIAS|..] == Digits(i) && Alias(j)[|ALIAS|..] == Digits(j);
    DigitsInjective(i, j);
  }

  lemma WidenByOne(
    paths0: seq<Path>, names0: map<string, string>, paths: seq<Path>, names: map<string, string>,
    extra: set<string>, alias: string, k: string)
    requires Widens(paths0, names0, paths, names, extra)
    requires forall p :: p in paths ==> p.token != alias
    ensures Widens(paths0, names0, paths + [Path(alias, "")], names[alias := k], extra + {k})
  {
    var paths', names' := paths + [Path(alias, "")], names[alias := k];
    forall a, rest
      ensures Selects(paths', names', a, rest) <==> Selects(paths, names, a, rest) || (rest == "" && a == k)
    {
      assert paths'[|paths|] == Path(alias, "");
      assert forall p :: p in paths' <==> p in paths || p == Path(alias, "");
      assert forall p :: p in paths ==> Resolve(names', p.token) == Resolve(names, p.token);
      if Selects(paths, names, a, rest) {
        var p :| p in paths && Resolve(names, p.token) == a && p.rest == rest;
        assert p in paths';
      }
      if rest == "" && a == k { assert Path(alias, "") in paths' && Resolve(names', alias) == k; }
    }
  }

  /** The projection once the first n key names were looked at: an alias for each one the caller leaves out. */
  function Injected(paths: seq<Path>, names: map<string, string>, keyNames: seq<string>, caller: set<string>, n: nat)
    : (seq<Path>, map<string, string>)
    requires n <= |keyNames|
  {
    if n == 0 then (paths, names)
    else
      var (paths', names') := Injected(paths, names, keyNames, caller, n - 1);
      if keyNames[n - 1] in caller then (paths', names')
      else (paths' + [Path(Alias(n - 1), "")], names'[Alias(n - 1) := keyNames[n - 1]])
  }

  method InjectKeyProjection(input: QueryInput, keyNames: seq<string>, caller: Option<set<string>>)
    requires caller.None? <==> input.paths.None?
    modifies input
    ensures input.startKey == old(input.startKey)
    ensures caller.None? ==> input.paths == old(input.paths) && input.names == old(input.names)
    ensures caller.Some? ==> input.paths.Some?
    ensures caller.Some? ==>
              (input.paths.value, input.names) ==
                Injected(old(input.paths).value, old(input.names), keyNames, caller.value, |keyNames|)
    ensures caller.Some? && !UsesAlias(old(input.paths)) ==>
              Widens(old(input.paths).value, old(input.names), input.paths.value, input.names, Extra(keyNames, caller))
  {
    if caller.None? { return; }
    var paths, names := input.paths.value, input.names;
    for i := 0 to |keyNames|
      invariant (paths, names) == Injected(old(input.paths).value, old(input.names), keyNames, caller.value, i)
      invariant unchanged(input)
    {
      var k := keyNames[i];
      if k in caller.value { continue; }
      paths, names := paths + [Path(Alias(i), "")], names[Alias(i) := k];
    }
    if !UsesAlias(input.paths) { InjectedWidens(input.paths.value, input.names, keyNames, caller.value, |keyNames|); }
    assert keyNames[..|keyNames|] == keyNames;
    input.paths, input.names := Some(paths), names;
  }

  /** Some path of the caller's is an alias that stands for an injected key. */
  ghost predicate Captures(paths: seq<Path>, keyNames: seq<string>, caller: set<string>, n: nat)
    requires n <= |keyNames|
  {
    exists p, i :: p in paths && 0 <= i < n && p.token == Alias(i) && keyNames[i] !in caller
  }

  lemma {:induction false} InjectedWidens(
    paths: seq<Path>, names: map<string, string>, keyNames: seq<string>, caller: set<string>, n: nat)
    requires n <= |keyNames| && !Captures(paths, keyNames, caller, n)
    ensures var (paths', names') := Injected(paths, names, keyNames, caller, n);
            && Widens(paths, names, paths', names', Extra(keyNames[..n], Some(caller)))
            && forall p :: p in paths' ==> p in paths || exists j :: 0 <= j < n && p.token == Alias(j)
  {
    if n > 0 {
      InjectedWidens(paths, names, keyNames, caller, n - 1);
      var (paths', names') := Injected(paths, names, keyNames, caller, n - 1);
      var k := keyNames[n - 1];
      assert keyNames[..n] == keyNames[..n - 1] + [k];
      var extra := Extra(keyNames[..n - 1], Some(caller));
      if k in caller {
        assert Extra(keyNames[..n], Some(caller)) == extra;
      } else {
        assert Extra(keyNames[..n], Some(caller)) == extra + {k};
        forall p | p in paths' ensures p.token != Alias(n - 1) {
          if p !in paths {
            var j :| 0 <= j < n - 1 && p.token == Alias(j);
            AliasInjective(n - 1, j);
          }
        }
        WidenByOne(paths, names, paths', names', extra, Alias(n - 1), k);
      }
    } else {
      assert Extra(keyNames[..0], Some(caller)) == {};
    }
  }

  /** What a token of the new projection stands for: an injected alias its key, any other what it stood for. */
  lemma {:induction false} InjectedResolves(
    paths: seq<Path>, names: map<string, string>, keyNames: seq<string>, caller: set<string>, n: nat, token: string)
    requires n <= |keyNames|
    ensures var names' := Injected(paths, names, keyNames, caller, n).1;
            && ((exists i :: 0 <= i < n && token == Alias(i) && keyNames[i] !in caller) ==>
                  Resolve(names', token) in Extra(keyNames, Some(caller)))
            && ((forall i :: 0 <= i < n && token == Alias(i) ==> keyNames[i] in caller) ==>
                 Resolve(names', token) == Resolve(names, token))
  {
    if n > 0 { InjectedResolves(paths, names, keyNames, caller, n - 1, token); }
  }

  lemma {:induction false} InjectedPaths(
    paths: seq<Path>, names: map<string, string>, keyNames: seq<string>, caller: set<string>, n: nat)
    requires n <= |keyNames|
    ensures forall p :: p in Injected(paths, names, keyNames, caller, n).0 ==>
              p in paths || exists i :: 0 <= i < n && p.token == Alias(i) && keyNames[i] !in caller
  {
    if n > 0 { InjectedPaths(paths, names, keyNames, caller, n - 1); }
  }

  /** No two paths pick the same thing, as DynamoDB demands. */
  predicate NoOverlap(paths: seq<Path>, names: map<string, string>) {
    forall p, q ::
      p in paths && q in paths && Resolve(names, p.token) == Resolve(names, q.token) && p.rest == q.rest ==> p == q
  }

  /**
   The injected aliases are not checked against the caller's: the projection is
   widened exactly when the caller uses none of them.
   */
  lemma WidensIffNotCaptured(paths: seq<Path>, names: map<string, string>, keyNames: seq<string>)
    requires NoOverlap(paths, names)
    ensures var caller := Mentioned(paths, names);
            var (paths', names') := Injected(paths, names, keyNames, caller, |keyNames|);
            Widens(paths, names, paths', names', Extra(keyNames, Some(caller))) <==>
              !Captures(paths, keyNames, caller, |keyNames|)
  {
    var caller := Mentioned(paths, names);
    assert keyNames[..|keyNames|] == keyNames;
    if Captures(paths, keyNames, caller, |keyNames|) {
      var p, i :| p in paths && 0 <= i < |keyNames| && p.token == Alias(i) && keyNames[i] !in caller;
      CapturedIsLost(paths, names, keyNames, p, i);
    } else {
      InjectedWidens(paths, names, keyNames, caller, |keyNames|);
    }
  }

  /** A caller's own alias of that name: the projection that asked for "data" now shows the key instead. */
  lemma AliasIsCaptured()
    ensures var paths, names := [Path(Alias(0), "")], map[Alias(0) := "data"];
            var (paths', names') := Injected(paths, names, ["pk"], Mentioned(paths, names), 1);
            && NoOverlap(paths, names) && Captures(paths, ["pk"], Mentioned(paths, names), 1)
            && Selects(paths, names, "data", "") && !Selects(paths', names', "data", "")
  {
    var paths, names := [Path(Alias(0), "")], map[Alias(0) := "data"];
    assert paths[0] in paths;
    assert Mentioned(paths, names) == {"data"};
    CapturedIsLost(paths, names, ["pk"], paths[0], 0);
  }

  lemma CapturedIsLost(paths: seq<Path>, names: map<string, string>, keyNames: seq<string>, p: Path, i: nat)
    requires NoOverlap(paths, names) && p in paths && i < |keyNames| && p.token == Alias(i) &&
              keyNames[i] !in Mentioned(paths, names)
    ensures var (paths', names') := Injected(paths, names, keyNames, Mentioned(paths, names), |keyNames|);
            var a := Resolve(names, p.token);
            Selects(paths, names, a, p.rest) && !Selects(paths', names', a, p.rest) &&
              a !in Extra(keyNames, Some(Mentioned(paths, names)))
  {
    var caller := Mentioned(paths, names);
    var (paths', names') := Injected(paths, names, keyNames, caller, |keyNames|);
    var a := Resolve(names, p.token);
    assert a in caller;
    InjectedPaths(paths, names, keyNames, caller, |keyNames|);
    forall q | q in paths' && q.rest == p.rest ensures Resolve(names', q.token) != a {
      InjectedResolves(paths, names, keyNames, caller, |keyNames|, q.token);
    }
  }

  /** Without the injected attributes, the widened projection is the caller's. */
  lemma StripUndoesInject(
    item: Item, paths: seq<Path>, names: map<string, string>,
    paths': seq<Path>, names': map<string, string>, extra: set<string>)
    requires Widens(paths, names, paths', names', extra)
    requires extra !! Mentioned(paths, names)
    ensures Project(item, Some(paths'), names') - extra == Project(item, Some(paths), names)
    ensures Project(item, Some(paths), names) - extra == Project(item, Some(paths), names)
    ensures forall k :: k in extra && k in item ==>
              k in Project(item, Some(paths'), names') && Project(item, Some(paths'), names')[k] == item[k]
  {
    forall a | a in item && a !in extra
      ensures Piece(item[a], paths', names', a) == Piece(item[a], paths, names, a)
    {
      assert Selects(paths', names', a, "") <==> Selects(paths, names, a, "");
      if item[a].Doc? {
        var v := item[a];
        assert (map k | k in v.parts && Selects(paths', names', a, k) :: v.parts[k])
            == (map k | k in v.parts && Selects(paths, names, a, k) :: v.parts[k]);
      }
    }
    forall a | a in item && a in extra
      ensures Piece(item[a], paths, names, a) == None && Piece(item[a], paths', names', a) == Some(item[a])
    {
      assert Selects(paths', names', a, "");
      assert forall rest :: !Selects(paths, names, a, rest);
    }
  }

  function StripAll(items: seq<Item>, extra: set<string>): seq<Item> {
    seq(|items|, i requires 0 <= i < |items| => items[i] - extra)
  }

  method StripInjected(items: seq<Item>, keyNames: seq<string>, caller: Option<set<string>>) returns (out: seq<Item>)
    ensures out == StripAll(items, Extra(keyNames, caller))
  {
    out := items;
    assert forall i :: 0 <= i < |items| ==> items[i] - {} == items[i];
    assert StripAll(items, {}) == items;
    if caller.None? { return; }
    assert Extra(keyNames[..0], caller) == {};
    for i := 0 to |keyNames|
      invariant out == StripAll(items, Extra(keyNames[..i], caller))
    {
      var k := keyNames[i];
      assert keyNames[..i + 1] == keyNames[..i] + [k];
      ghost var extra := Extra(keyNames[..i], caller);
      if k in caller.value {
        assert Extra(keyNames[..i + 1], caller) == extra;
        continue;
      }
      assert Extra(keyNames[..i + 1], caller) == extra + {k};
      for n := 0 to |items|
        invariant |out| == |items|
        invariant forall j :: 0 <= j < n ==> out[j] == items[j] - (extra + {k})
        invariant forall j :: n <= j < |items| ==> out[j] == items[j] - extra
      {
        out := out[n := out[n] - {k}];
      }
    }
    assert keyNames[..|keyNames|] == keyNames;
  }

  // ---- The raw query ------------------------------------------------------------

  /**
   What DynamoDB is free to choose, for its n-th call: whether it fails, how
   many items it evaluates (within 1 and the limit), and whether it answers a
   continuation key although it reached the end.
   */
  datatype Choices = Choices(fails: nat -> bool, evaluates: nat -> int, keyAtEnd: nat -> bool)

  datatype Query = Query(
    src: Source, db: Choices, paths: Option<seq<Path>>, names: map<string, string>, limit: int, maxPages: int)

  /** Where the n-th call, resuming at `pos`, stops evaluating. */
  function EndOf(q: Query, n: nat, pos: nat): nat
    requires pos <= |q.src.items| && q.limit > 0
  {
    var room := if |q.src.items| - pos < q.limit then |q.src.items| - pos else q.limit;
    var wish := if q.db.evaluates(n) < 1 then 1 else q.db.evaluates(n);
    pos + if wish < room then wish else room
  }

  predicate AnswersKey(q: Query, n: nat, pos: nat)
    requires pos <= |q.src.items| && q.limit > 0
  {
    pos < EndOf(q, n, pos) && (EndOf(q, n, pos) < |q.src.items| || q.db.keyAtEnd(n))
  }

  /** One DynamoDB Query call evaluated the items in [pos, end). */
  ghost predicate RawAnswer(src: Source, pos: nat, end: nat, limit: nat, lek: Option<Item>) {
    && pos <= end <= |src.items| && end <= pos + limit
    && (pos < |src.items| ==> pos < end)
    && (lek.None? ==> end == |src.items|)
    && (lek.Some? ==> pos < end && PointsAt(src, lek, end))
  }

  /** Where a query with this start key resumes. */
  method Locate(src: Source, key: Option<Item>, ghost pos: nat) returns (at: nat)
    requires KeysDistinct(src) && PointsAt(src, key, pos)
    ensures at == pos
  {
    at := 0;
    if key.None? { return; }
    while KeyOf(src.items[at], src.keyNames) != key.value
      invariant at < pos
      decreases pos - at
    {
      at := at + 1;
    }
    assert at < pos - 1 ==> !SameKey(src, at, pos - 1);
    at := at + 1;
  }

  method RawQuery(q: Query, input: QueryInput, n: nat, ghost pos: nat)
    returns (fails: bool, out: seq<Item>, lek: Option<Item>)
    requires KeysDistinct(q.src) && q.limit > 0 && PointsAt(q.src, input.startKey, pos) && pos <= |q.src.items|
    ensures fails == q.db.fails(n)
    ensures !fails ==> RawAnswer(q.src, pos, EndOf(q, n, pos), q.limit, lek) && (lek.Some? <==> AnswersKey(q, n, pos))
    ensures !fails ==>
              out == ProjectAll(Filter(q.src.items[pos..EndOf(q, n, pos)], q.src.matches), input.paths, input.names)
  {
    fails, lek, out := q.db.fails(n), None, [];
    if fails { return; }
    var at := Locate(q.src, input.startKey, pos);
    var end := EndOf(q, n, at);
    out := ProjectAll(Filter(q.src.items[at..end], q.src.matches), input.paths, input.names);
    if AnswersKey(q, n, at) { lek := Some(KeyOf(q.src.items[end - 1], q.src.keyNames)); }
  }

  // ---- queryFiltered --------------------------------------------------------------

  datatype PageResult =
    | Page(items: seq<Item>, next: Option<Item>, calls: nat)
    | BadLimit | DbError | NoSchema | LacksKey

  const DEFAULT_MAX_PAGES := 10

  function PageCap(maxPages: int): nat { if maxPages <= 0 then DEFAULT_MAX_PAGES else maxPages }

  /** What the caller asked to see of the matches among the items in [a, b). */
  function Listing(q: Query, a: nat, b: nat): seq<Item>
    requires a <= b <= |q.src.items|
  {
    ProjectAll(Filter(q.src.items[a..b], q.src.matches), q.paths, q.names)
  }

  /** The same items; only a caller that uses the reserved aliases may see other attributes of them. */
  ghost predicate Lists(q: Query, items: seq<Item>, expected: seq<Item>) {
    |items| == |expected| && (UsesAlias(q.paths) || items == expected)
  }

  /** `r` lists exactly the matches in [a, b), and its cursor resumes at b. */
  ghost predicate PageOf(q: Query, r: PageResult, a: nat, b: nat) {
    && r.Page?
    && a <= b <= |q.src.items|
    && Lists(q, r.items, Listing(q, a, b))
    && |r.items| <= q.limit
    && r.calls <= PageCap(q.maxPages)
    && (r.next.None? ==> b == |q.src.items|)
    && (r.next.Some? ==> a < b && PointsAt(q.src, r.next, b))
    && (r.next.Some? && |r.items| < q.limit ==> r.calls == PageCap(q.maxPages))
  }

  /** How many items in [a, b) match. */
  function Found(q: Query, a: nat, b: nat): nat
    requires a <= b <= |q.src.items|
  {
    |Filter(q.src.items[a..b], q.src.matches)|
  }

  /**
   The n-th call went from `pos` to `end` and another one followed: no failure,
   a key, and still too few matches since `a`.
   */
  predicate Onward(q: Query, n: nat, a: nat, pos: nat, end: nat)
    requires q.limit > 0
  {
    && a <= pos <= end <= |q.src.items|
    && !q.db.fails(n) && end == EndOf(q, n, pos) && AnswersKey(q, n, pos) && Found(q, a, end) < q.limit
  }

  predicate WentOn(q: Query, first: nat, a: nat, walk: seq<nat>, k: nat)
    requires q.limit > 0 && k + 1 < |walk|
  {
    Onward(q, first + k, a, walk[k], walk[k + 1])
  }

  /** Where the calls numbered from `first` on resumed: the first at `a`, each other where the one before it stopped. */
  ghost predicate Walk(q: Query, first: nat, a: nat, walk: seq<nat>)
    requires q.limit > 0
  {
    && 1 <= |walk| <= PageCap(q.maxPages) && walk[0] == a && a <= walk[|walk| - 1] <= |q.src.items|
    && forall k :: 0 <= k < |walk| - 1 ==> WentOn(q, first, a, walk, k)
  }

  lemma WalkOn(q: Query, first: nat, a: nat, walk: seq<nat>, n: nat, pos: nat, end: nat)
    requires q.limit > 0 && Walk(q, first, a, walk) && |walk| < PageCap(q.maxPages)
    requires n == first + |walk| - 1 && pos == walk[|walk| - 1] && Onward(q, n, a, pos, end)
    ensures Walk(q, first, a, walk + [end])
  {
    forall k | 0 <= k < |walk| ensures WentOn(q, first, a, walk + [end], k) {
      if k < |walk| - 1 { assert WentOn(q, first, a, walk, k); }
    }
  }

  /** What the last call of a walk, number n from `pos`, leads to. */
  datatype Last = Fault | TooMany | Enough

  function LastCall(q: Query, n: nat, a: nat, pos: nat): Last
    requires q.limit > 0 && a <= pos <= |q.src.items|
  {
    if q.db.fails(n) then Fault else if Found(q, a, EndOf(q, n, pos)) > q.limit then TooMany else Enough
  }

  /**
   The walk really ends there: nothing but the page cap stops a call that was
   answered a key and leaves matches wanting.
   */
  predicate NoFurther(q: Query, n: nat, a: nat, pos: nat, calls: nat)
    requires q.limit > 0 && a <= pos <= |q.src.items|
  {
    !q.db.fails(n) && AnswersKey(q, n, pos) && Found(q, a, EndOf(q, n, pos)) < q.limit ==> calls >= PageCap(q.maxPages)
  }

  /** The last of `calls` calls leads to `r`, a page that ends at `b`. */
  ghost predicate Concludes(q: Query, r: PageResult, n: nat, a: nat, pos: nat, calls: nat, b: nat)
    requires q.limit > 0 && a <= pos <= |q.src.items|
  {
    && NoFurther(q, n, a, pos, calls)
    && Fitting(r, LastCall(q, n, a, pos), UsesAlias(q.paths), NestedKey(q.src, q.paths, q.names), calls)
    && (r.Page? ==> StopsAt(q, r.next, n, a, pos, b))
  }

  /**
   Where a page stops, and whether it has a cursor. A whole answer is used up
   and its key, or the lack of one, is the page's; an answer that is too long is
   cut right after the limit-th match, and there is more to come.
   */
  predicate StopsAt(q: Query, next: Option<Item>, n: nat, a: nat, pos: nat, b: nat)
    requires q.limit > 0 && a <= pos <= |q.src.items|
  {
    match LastCall(q, n, a, pos)
    case Fault => true
    case Enough => b == EndOf(q, n, pos) && (next.Some? <==> AnswersKey(q, n, pos))
    case TooMany =>
      && pos < b <= EndOf(q, n, pos) && Found(q, a, b) == q.limit && q.src.matches(q.src.items[b - 1])
      && next.Some?
  }

  /** The one result that fits; with aliases of the reserved kind, either is possible where a page must be cut. */
  predicate Fitting(r: PageResult, last: Last, aliased: bool, nested: bool, calls: nat) {
    match last
    case Fault => r == DbError
    case TooMany => (r == LacksKey || (r.Page? && r.calls == calls)) && (aliased || (r == LacksKey <==> nested))
    case Enough => r.Page? && r.calls == calls
  }

  method CursorFrom(item: Item, keyNames: seq<string>) returns (ok: bool, r: PageResult, cursor: Item)
    ensures ok <==> keyNames != [] && forall k :: k in keyNames ==> k in item
    ensures ok ==> cursor == KeyOf(item, set k | k in keyNames)
    ensures !ok ==> r == if keyNames == [] then NoSchema else LacksKey
  {
    ok, r, cursor := false, NoSchema, map[];
    if keyNames == [] { return; }
    for i := 0 to |keyNames|
      invariant forall k :: k in keyNames[..i] ==> k in item
      invariant cursor == KeyOf(item, set k | k in keyNames[..i])
    {
      assert keyNames[..i + 1] == keyNames[..i] + [keyNames[i]];
      if keyNames[i] !in item { r := LacksKey; return; }
      cursor := cursor[keyNames[i] := item[keyNames[i]]];
    }
    assert keyNames[..|keyNames|] == keyNames;
    ok := true;
  }

  method SortedKeys(m: Item) returns (keys: seq<string>)
    ensures (set k | k in keys) == m.Keys
  {
    keys := [];
    var left := m.Keys;
    while left != {}
      invariant (set k | k in keys) + left == m.Keys
      decreases left
    {
      var k :| k in left;
      keys, left := keys + [k], left - {k};
    }
  }

  lemma {:induction false} FilterSplits(s: seq<Item>, t: seq<Item>, f: Item -> bool)
    ensures Filter(s + t, f) == Filter(s, f) + Filter(t, f)
  {
    if t == [] {
      assert s + t == s;
    } else {
      assert (s + t)[..|s + t| - 1] == s + t[..|t| - 1];
      FilterSplits(s, t[..|t| - 1], f);
    }
  }

  lemma {:induction false} FilterShrinks(s: seq<Item>, f: Item -> bool)
    ensures |Filter(s, f)| <= |s|
    ensures forall x :: x in Filter(s, f) ==> x in s
  {
    if s != [] { FilterShrinks(s[..|s| - 1], f); }
  }

  /** Where the k-th match sits. */
  lemma {:induction false} FilterCut(s: seq<Item>, f: Item -> bool, k: nat) returns (b: nat)
    requires 0 < k <= |Filter(s, f)|
    ensures 0 < b <= |s| && s[b - 1] == Filter(s, f)[k - 1] && f(s[b - 1])
    ensures Filter(s[..b], f) == Filter(s, f)[..k]
  {
    var init := s[..|s| - 1];
    if k <= |Filter(init, f)| {
      b := FilterCut(init, f, k);
      assert init[..b] == s[..b];
    } else {
      b := |s|;
      assert s[..b] == s;
    }
  }

  lemma ListingSplits(q: Query, a: nat, b: nat, c: nat)
    requires a <= b <= c <= |q.src.items|
    ensures Listing(q, a, c) == Listing(q, a, b) + Listing(q, b, c)
  {
    assert q.src.items[a..b] + q.src.items[b..c] == q.src.items[a..c];
    FilterSplits(q.src.items[a..b], q.src.items[b..c], q.src.matches);
  }

  /** The projection in force is the caller's, widened by `extra`, and stripping `extra` restores it. */
  ghost predicate Showing(q: Query, input: QueryInput, caller: Option<set<string>>, keyNames: seq<string>)
    reads input
  {
    && (caller.None? <==> q.paths.None?)
    && (caller.Some? ==> caller.value == Mentioned(q.paths.value, q.names))
    && (keyNames == [] || q.paths.None? ==> input.paths == q.paths && input.names == q.names)
    && (keyNames != [] && q.paths.Some? ==>
          && input.paths.Some?
          && (UsesAlias(q.paths) ||
               Widens(q.paths.value, q.names, input.paths.value, input.names, Extra(keyNames, caller))))
  }

  lemma StripShown(q: Query, input: QueryInput, caller: Option<set<string>>, keyNames: seq<string>, item: Item)
    requires Showing(q, input, caller, keyNames) && !UsesAlias(q.paths)
    ensures Project(item, input.paths, input.names) - Extra(keyNames, caller) == Project(item, q.paths, q.names)
    ensures Project(item, q.paths, q.names) - Extra(keyNames, caller) == Project(item, q.paths, q.names)
    ensures forall k :: k in Extra(keyNames, caller) && k in item && keyNames != [] ==>
              k in Project(item, input.paths, input.names) && Project(item, input.paths, input.names)[k] == item[k]
  {
    var extra := Extra(keyNames, caller);
    if q.paths.None? {
      assert extra == {};
      assert item - {} == item;
    } else if keyNames == [] {
      assert extra == {};
      assert Project(item, q.paths, q.names) - {} == Project(item, q.paths, q.names);
    } else {
      assert extra !! Mentioned(q.paths.value, q.names);
      StripUndoesInject(item, q.paths.value, q.names, input.paths.value, input.names, extra);
    }
  }

  /** Every key attribute of a returned item is there to build a cursor from. */
  lemma KeysShown(q: Query, input: QueryInput, caller: Option<set<string>>, keyNames: seq<string>, item: Item)
    requires Showing(q, input, caller, keyNames) && keyNames != []
    requires (set k | k in keyNames) == q.src.keyNames && q.src.keyNames <= item.Keys
    requires !NestedKey(q.src, q.paths, q.names) && !UsesAlias(q.paths)
    ensures var shown := Project(item, input.paths, input.names);
            q.src.keyNames <= shown.Keys && KeyOf(shown, q.src.keyNames) == KeyOf(item, q.src.keyNames)
  {}

  /** A scalar key reached only through a document path is not in what DynamoDB returns. */
  lemma NestedKeyHidden(q: Query, input: QueryInput, caller: Option<set<string>>, keyNames: seq<string>, item: Item)
    requires Showing(q, input, caller, keyNames) && keyNames != [] && NestedKey(q.src, q.paths, q.names) &&
              !UsesAlias(q.paths)
    requires (set k | k in keyNames) == q.src.keyNames && q.src.keyNames <= item.Keys
    requires forall k :: k in q.src.keyNames ==> item[k].Scalar?
    ensures exists k :: k in keyNames && k !in Project(item, input.paths, input.names)
  {}

  /** `items` are the matches in [a, pos), each perhaps still carrying the attributes in `extra`. */
  ghost predicate Collected(q: Query, a: nat, pos: nat, items: seq<Item>, extra: set<string>) {
    && a <= pos <= |q.src.items| && |items| == |Listing(q, a, pos)|
    && (UsesAlias(q.paths) || forall i :: 0 <= i < |items| ==> items[i] - extra == Listing(q, a, pos)[i])
  }

  lemma StripCollected(q: Query, a: nat, pos: nat, items: seq<Item>, extra: set<string>)
    requires Collected(q, a, pos, items, extra)
    ensures Lists(q, StripAll(items, extra), Listing(q, a, pos))
  {}

  lemma CollectMore(q: Query, a: nat, pos: nat, b: nat, items: seq<Item>, more: seq<Item>, extra: set<string>)
    requires Collected(q, a, pos, items, extra) && Collected(q, pos, b, more, extra)
    ensures Collected(q, a, b, items + more, extra)
  {
    ListingSplits(q, a, pos, b);
  }

  /** What a raw query returned, as far as position b, stripped, is what the caller asked to see. */
  lemma CollectRaw(
    q: Query, input: QueryInput, caller: Option<set<string>>, keyNames: seq<string>, pos: nat, b: nat, out: seq<Item>)
    requires Showing(q, input, caller, keyNames) && pos <= b <= |q.src.items|
    requires out == ProjectAll(Filter(q.src.items[pos..b], q.src.matches), input.paths, input.names)
    ensures Collected(q, pos, b, out, Extra(keyNames, caller))
  {
    var found := Filter(q.src.items[pos..b], q.src.matches);
    forall i | 0 <= i < |out| && !UsesAlias(q.paths) ensures out[i] - Extra(keyNames, caller) == Listing(q, pos, b)[i] {
      StripShown(q, input, caller, keyNames, found[i]);
    }
  }

  /** The first n items a raw query returned are the matches up to where it evaluated the n-th. */
  lemma CutRaw(src: Source, paths: Option<seq<Path>>, names: map<string, string>, pos: nat, end: nat, n: nat)
    returns (b: nat)
    requires pos <= end <= |src.items| && 0 < n <= |Filter(src.items[pos..end], src.matches)|
    ensures pos < b <= end && src.matches(src.items[b - 1])
    ensures ProjectAll(Filter(src.items[pos..b], src.matches), paths, names)
              == ProjectAll(Filter(src.items[pos..end], src.matches), paths, names)[..n]
    ensures ProjectAll(Filter(src.items[pos..end], src.matches), paths, names)[n - 1] ==
              Project(src.items[b - 1], paths, names)
  {
    var s := src.items[pos..end];
    var cut := FilterCut(s, src.matches, n);
    b := pos + cut;
    assert s[..cut] == src.items[pos..b];
  }

  /** Items from before the injection carry nothing to strip. */
  lemma CollectedBare(
    q: Query, input: QueryInput, caller: Option<set<string>>, keyNames: seq<string>, a: nat, pos: nat, items: seq<Item>)
    requires Showing(q, input, caller, keyNames)
    requires Collected(q, a, pos, items, {})
    ensures Collected(q, a, pos, items, Extra(keyNames, caller))
  {}

  /** Strip what was injected and hand the page over. */
  method FinishPage(
    q: Query, caller: Option<set<string>>, keyNames: seq<string>, ghost a: nat, ghost b: nat,
    items: seq<Item>, next: Option<Item>, calls: nat) returns (r: PageResult)
    requires Collected(q, a, b, items, Extra(keyNames, caller))
    requires |items| <= q.limit && calls <= PageCap(q.maxPages)
    requires next.None? ==> b == |q.src.items|
    requires next.Some? ==> a < b && PointsAt(q.src, next, b)
    requires next.Some? && |items| < q.limit ==> calls == PageCap(q.maxPages)
    ensures PageOf(q, r, a, b) && r.calls == calls && r.next == next
  {
    var shown := StripInjected(items, keyNames, caller);
    StripCollected(q, a, b, items, Extra(keyNames, caller));
    r := Page(shown, next, calls);
  }

  /** The first continuation key reveals the key schema; from here on the calls also fetch it. */
  method LearnKeys(
    q: Query, input: QueryInput, caller: Option<set<string>>, lek: Item, items: seq<Item>, ghost a: nat, ghost end: nat)
    returns (keyNames: seq<string>)
    requires q.src.keyNames != {} && lek.Keys == q.src.keyNames
    requires Showing(q, input, caller, []) && Collected(q, a, end, items, {})
    modifies input
    ensures input.startKey == old(input.startKey)
    ensures keyNames != [] && (set k | k in keyNames) == q.src.keyNames
    ensures Showing(q, input, caller, keyNames) && Collected(q, a, end, items, Extra(keyNames, caller))
  {
    keyNames := SortedKeys(lek);
    InjectKeyProjection(input, keyNames, caller);
    CollectedBare(q, input, caller, keyNames, a, end, items);
  }

  /** A raw answer cut after n items: they are the matches up to some b, and the last of them is shown from b - 1. */
  lemma CutCollected(
    q: Query, input: QueryInput, caller: Option<set<string>>, keyNames: seq<string>,
    a: nat, pos: nat, end: nat, items: seq<Item>, out: seq<Item>, n: nat)
    returns (b: nat)
    requires Showing(q, input, caller, keyNames)
    requires Collected(q, a, pos, items, Extra(keyNames, caller)) && pos <= end <= |q.src.items|
    requires out == ProjectAll(Filter(q.src.items[pos..end], q.src.matches), input.paths, input.names)
    requires 0 < n <= |out|
    ensures a <= pos < b <= end && Collected(q, a, b, items + out[..n], Extra(keyNames, caller))
    ensures Found(q, a, b) == |items| + n && q.src.matches(q.src.items[b - 1])
    ensures (items + out[..n])[|items| + n - 1] == Project(q.src.items[b - 1], input.paths, input.names)
  {
    b := CutRaw(q.src, input.paths, input.names, pos, end, n);
    var cut := out[..n];
    CollectRaw(q, input, caller, keyNames, pos, b, cut);
    CollectMore(q, a, pos, b, items, cut, Extra(keyNames, caller));
    assert cut[n - 1] == out[n - 1];
  }

  /** The page is full before the raw answer is used up: cut it, and resume from its last item. */
  method CutPage(
    q: Query, input: QueryInput, caller: Option<set<string>>, keyNames: seq<string>,
    ghost a: nat, ghost pos: nat, ghost end: nat, items: seq<Item>, out: seq<Item>, calls: nat)
    returns (r: PageResult, ghost b: nat)
    requires KeysPresent(q.src) && Showing(q, input, caller, keyNames) && keyNames != []
    requires (set k | k in keyNames) == q.src.keyNames
    requires Collected(q, a, pos, items, Extra(keyNames, caller)) && pos <= end <= |q.src.items|
    requires out == ProjectAll(Filter(q.src.items[pos..end], q.src.matches), input.paths, input.names)
    requires |items| < q.limit < |items| + |out| && calls <= PageCap(q.maxPages)
    ensures r.Page? ==> PageOf(q, r, a, b) && r.calls == calls && r.next.Some?
    ensures pos < b <= end && Found(q, a, b) == q.limit && q.src.matches(q.src.items[b - 1])
    ensures UsesAlias(q.paths) || (!r.Page? <==> NestedKey(q.src, q.paths, q.names))
    ensures !r.Page? ==> r == LacksKey
  {
    var want := q.limit - |items|;
    var taken := items + out[..want];
    b := CutCollected(q, input, caller, keyNames, a, pos, end, items, out, want);
    assert |taken| == q.limit;
    var ok, why, cursor := CursorOf(q, input, caller, keyNames, taken[|taken| - 1], b);
    if !ok { return why, b; }
    r := FinishPage(q, caller, keyNames, a, b, taken, Some(cursor), calls);
  }

  /** The cursor of the last item kept: the stored item's key, unless the projection hides part of it. */
  method CursorOf(
    q: Query, input: QueryInput, caller: Option<set<string>>, keyNames: seq<string>, last: Item, ghost b: nat)
    returns (ok: bool, why: PageResult, cursor: Item)
    requires KeysPresent(q.src) && Showing(q, input, caller, keyNames) && keyNames != []
    requires (set k | k in keyNames) == q.src.keyNames && 0 < b <= |q.src.items|
    requires last == Project(q.src.items[b - 1], input.paths, input.names)
    ensures ok ==> PointsAt(q.src, Some(cursor), b)
    ensures UsesAlias(q.paths) || (ok <==> !NestedKey(q.src, q.paths, q.names))
    ensures !ok ==> why == LacksKey
  {
    ghost var item := q.src.items[b - 1];
    if !UsesAlias(q.paths) && NestedKey(q.src, q.paths, q.names) {
      NestedKeyHidden(q, input, caller, keyNames, item);
    } else if !UsesAlias(q.paths) {
      KeysShown(q, input, caller, keyNames, item);
    }
    ok, why, cursor := CursorFrom(last, keyNames);
    if ok { CursorIsKey(q, input, caller, keyNames, item); }
  }

  /** Between two calls: fewer than limit matches collected, and the next call resumes right after them. */
  ghost predicate Underway(
    q: Query, input: QueryInput, caller: Option<set<string>>, keyNames: seq<string>, items: seq<Item>,
    page: nat, a: nat, pos: nat)
    reads input
  {
    && page < PageCap(q.maxPages) && (page > 0 ==> a < pos)
    && PointsAt(q.src, input.startKey, pos)
    && Collected(q, a, pos, items, Extra(keyNames, caller)) && |items| < q.limit
    && (page == 0 ==> items == [] && keyNames == [])
    && (page > 0 ==> keyNames != [] && (set k | k in keyNames) == q.src.keyNames)
    && Showing(q, input, caller, keyNames)
  }

  lemma UnderwayAtFirst(q: Query, input: QueryInput, caller: Option<set<string>>, a: nat)
    requires q.limit > 0 && input.paths == q.paths && input.names == q.names && PointsAt(q.src, input.startKey, a)
    requires caller == if q.paths.None? then None else Some(Mentioned(q.paths.value, q.names))
    ensures Underway(q, input, caller, [], [], 0, a, a)
  {
    assert Extra([], caller) == {};
    assert Listing(q, a, a) == [];
  }

  /**
   What one answer leads to: too many matches cut the page, a last answer ends
   it, any other leads to the next call.
   */
  method TakeAnswer(
    q: Query, input: QueryInput, caller: Option<set<string>>, keyNames: seq<string>, items: seq<Item>, page: nat,
    out: seq<Item>, lek: Option<Item>, ghost a: nat, ghost pos: nat, ghost end: nat)
    returns (stop: bool, r: PageResult, keyNames': seq<string>, items': seq<Item>, ghost b: nat)
    requires WellFormed(q.src) && Underway(q, input, caller, keyNames, items, page, a, pos)
    requires RawAnswer(q.src, pos, end, q.limit, lek)
    requires out == ProjectAll(Filter(q.src.items[pos..end], q.src.matches), input.paths, input.names)
    modifies input
    ensures stop <==> |items| + |out| >= q.limit || lek.None? || page + 1 >= PageCap(q.maxPages)
    ensures stop ==> r == LacksKey || (PageOf(q, r, a, b) && r.calls == page + 1)
    ensures stop && r == LacksKey ==> |items| + |out| > q.limit
    ensures stop && |items| + |out| <= q.limit ==> r.Page? && b == end && (r.next.Some? <==> lek.Some?)
    ensures stop && r.Page? && |items| + |out| > q.limit ==>
              pos < b <= end && Found(q, a, b) == q.limit && q.src.matches(q.src.items[b - 1]) && r.next.Some?
    ensures stop && !UsesAlias(q.paths) ==>
              (r == LacksKey <==> |items| + |out| > q.limit && NestedKey(q.src, q.paths, q.names))
    ensures !stop ==>
              b == end && |items'| == |items| + |out| && Underway(q, input, caller, keyNames', items', page + 1, a, b)
  {
    stop, r, keyNames', items' := true, LacksKey, keyNames, items;
    b := end;
    FilterShrinks(q.src.items[pos..end], q.src.matches);
    var want := q.limit - |items|;
    if |out| > want {
      r, b := CutPage(q, input, caller, keyNames, a, pos, end, items, out, page + 1);
      return;
    }
    CollectRaw(q, input, caller, keyNames, pos, end, out);
    CollectMore(q, a, pos, end, items, out, Extra(keyNames, caller));
    items' := items + out;
    if lek.None? || |items'| == q.limit || page + 1 >= PageCap(q.maxPages) {
      r := FinishPage(q, caller, keyNames, a, end, items', lek, page + 1);
      return;
    }
    if keyNames == [] {
      assert Extra(keyNames, caller) == {};
      assert lek.value.Keys == q.src.keyNames;
      keyNames' := LearnKeys(q, input, caller, lek.value, items', a, end);
    }
    input.startKey := lek;
    stop := false;
  }

  /** Call number n, from `pos`, and what its answer leads to: a page, an error, or the next call. */
  method CallOnce(
    q: Query, input: QueryInput, caller: Option<set<string>>, keyNames: seq<string>, items: seq<Item>,
    n: nat, page: nat, ghost a: nat, ghost pos: nat)
    returns (stop: bool, r: PageResult, keyNames': seq<string>, items': seq<Item>, ghost b: nat)
    requires WellFormed(q.src)
    requires Underway(q, input, caller, keyNames, items, page, a, pos)
    modifies input
    ensures stop ==> Concludes(q, r, n, a, pos, page + 1, b) && (r.Page? ==> PageOf(q, r, a, b))
    ensures !stop ==> Onward(q, n, a, pos, b) && Underway(q, input, caller, keyNames', items', page + 1, a, b)
  {
    stop, r, keyNames', items' := true, DbError, keyNames, items;
    b := pos;
    var fails, out, lek := RawQuery(q, input, n, pos);
    if fails { return; }
    ghost var end := EndOf(q, n, pos);
    FoundSoFar(q, input, a, pos, end, items, out);
    stop, r, keyNames', items', b := TakeAnswer(q, input, caller, keyNames, items, page, out, lek, a, pos, end);
  }

  lemma FoundSoFar(q: Query, input: QueryInput, a: nat, pos: nat, end: nat, items: seq<Item>, out: seq<Item>)
    requires a <= pos <= end <= |q.src.items| && |items| == |Listing(q, a, pos)|
    requires out == ProjectAll(Filter(q.src.items[pos..end], q.src.matches), input.paths, input.names)
    ensures Found(q, a, end) == |items| + |out|
  {
    ListingSplits(q, a, pos, end);
  }

  /**
   Collects up to limit matches over at most maxPages raw calls, the first of
   them the database's call number `first`. Its result follows exactly from
   what those calls did (`walk` is where each resumed), and its cursor is always
   safe to resume from. A page that must be cut fails exactly if the projection
   reaches a key through a document path only.
   */
  method QueryFiltered(q: Query, input: QueryInput, first: nat, ghost a: nat)
    returns (r: PageResult, ghost b: nat, ghost walk: seq<nat>)
    requires WellFormed(q.src)
    requires input.paths == q.paths && input.names == q.names
    requires PointsAt(q.src, input.startKey, a)
    modifies input
    ensures q.limit <= 0 <==> r == BadLimit
    ensures q.limit > 0 ==> Ends(q, r, first, a, walk, b)
    ensures r.Page? ==> PageOf(q, r, a, b)
  {
    b, walk := a, [a];
    if q.limit <= 0 { return BadLimit, a, walk; }
    var caller := ProjectedNames(input);
    UnderwayAtFirst(q, input, caller, a);
    r, b, walk := CallUntilDone(q, input, caller, first, a);
  }

  method CallUntilDone(q: Query, input: QueryInput, caller: Option<set<string>>, first: nat, ghost a: nat)
    returns (r: PageResult, ghost b: nat, ghost walk: seq<nat>)
    requires WellFormed(q.src) && Underway(q, input, caller, [], [], 0, a, a)
    modifies input
    ensures Ends(q, r, first, a, walk, b)
    ensures r.Page? ==> PageOf(q, r, a, b)
  {
    var keyNames: seq<string>, items: seq<Item> := [], [];
    var page := 0;
    b, walk := a, [a];
    while true
      invariant |walk| == page + 1 && walk[page] == b && Walk(q, first, a, walk)
      invariant Underway(q, input, caller, keyNames, items, page, a, b)
      decreases PageCap(q.maxPages) - page
    {
      var stop;
      ghost var pos := b;
      stop, r, keyNames, items, b := CallOnce(q, input, caller, keyNames, items, first + page, page, a, b);
      if stop {
        WalkEnds(q, r, first, a, walk, first + page, pos, page + 1, b);
        return;
      }
      WalkOn(q, first, a, walk, first + page, pos, b);
      page, walk := page + 1, walk + [b];
    }
  }

  /** The calls of `walk` were made, and `r` is what they lead to. */
  ghost predicate Ends(q: Query, r: PageResult, first: nat, a: nat, walk: seq<nat>, b: nat)
    requires q.limit > 0
  {
    Walk(q, first, a, walk) && Concludes(q, r, first + |walk| - 1, a, walk[|walk| - 1], |walk|, b)
  }

  lemma WalkEnds(q: Query, r: PageResult, first: nat, a: nat, walk: seq<nat>, n: nat, pos: nat, calls: nat, b: nat)
    requires q.limit > 0 && Walk(q, first, a, walk) && calls == |walk| && n == first + calls - 1 &&
              pos == walk[calls - 1]
    requires Concludes(q, r, n, a, pos, calls, b)
    ensures Ends(q, r, first, a, walk, b)
  {}

  /** Even through a projection, a cursor built from a shown item is the stored item's key. */
  lemma CursorIsKey(q: Query, input: QueryInput, caller: Option<set<string>>, keyNames: seq<string>, item: Item)
    requires Showing(q, input, caller, keyNames) && keyNames != []
    requires (set k | k in keyNames) == q.src.keyNames && q.src.keyNames <= item.Keys
    requires forall k :: k in q.src.keyNames ==> item[k].Scalar?
    requires q.src.keyNames <= Project(item, input.paths, input.names).Keys
    ensures KeyOf(Project(item, input.paths, input.names), q.src.keyNames) == KeyOf(item, q.src.keyNames)
  {}

  // ---- Following the cursor -----------------------------------------------------------

  /** Pages fetched one after another, each from the cursor of the one before, starting with none. */
  ghost predicate Chain(q: Query, pages: seq<PageResult>, ends: seq<nat>) {
    && |ends| == |pages| + 1 && ends[0] == 0
    && (forall i :: 0 <= i < |pages| ==> PageOf(q, pages[i], ends[i], ends[i + 1]))
    && (forall i :: 0 <= i < |pages| - 1 ==> pages[i].Page? && pages[i].next.Some?)
  }

  function Concat(pages: seq<PageResult>): seq<Item> {
    if pages == [] then []
    else Concat(pages[..|pages| - 1]) + (if pages[|pages| - 1].Page? then pages[|pages| - 1].items else [])
  }

  /** So far, a chain has listed every match before its cursor exactly once, in order. */
  lemma {:induction false} ChainListsPrefix(q: Query, pages: seq<PageResult>, ends: seq<nat>)
    requires Chain(q, pages, ends)
    ensures ends[|pages|] <= |q.src.items|
    ensures Lists(q, Concat(pages), Listing(q, 0, ends[|pages|]))
    ensures pages == [] || (pages[|pages| - 1].Page? && pages[|pages| - 1].next.Some?) ==> ends[|pages|] >= |pages|
    ensures ends[|pages|] >= |pages| - 1
  {
    if pages != [] {
      var n := |pages| - 1;
      assert pages[..n] == pages[..n][..n];
      assert Chain(q, pages[..n], ends[..n + 1]);
      ChainListsPrefix(q, pages[..n], ends[..n + 1]);
      assert PageOf(q, pages[n], ends[n], ends[n + 1]);
      ListingSplits(q, 0, ends[n], ends[n + 1]);
      if n > 0 { assert pages[n - 1].next.Some?; }
    }
  }

  /**
   Following the cursor from nil until nil lists the whole filtered partition,
   each match once and in order, and takes at most one page more than there are items.
   */
  lemma ChainListsAll(q: Query, pages: seq<PageResult>, ends: seq<nat>)
    requires Chain(q, pages, ends)
    ensures |pages| <= |q.src.items| + 1
    ensures pages != [] && pages[|pages| - 1].Page? && pages[|pages| - 1].next.None? ==>
              Lists(q, Concat(pages), ProjectAll(Filter(q.src.items, q.src.matches), q.paths, q.names))
  {
    ChainListsPrefix(q, pages, ends);
    if pages != [] {
      assert PageOf(q, pages[|pages| - 1], ends[|pages| - 1], ends[|pages|]);
      assert q.src.items[0..|q.src.items|] == q.src.items;
    }
  }

  datatype Listed = All(items: seq<Item>) | Stopped(why: PageResult)

  /** One page from a cursor, the database having answered `calls` calls before and `made` after. */
  method NextPage(q: Query, cursor: Option<Item>, calls: nat, ghost a: nat)
    returns (r: PageResult, ghost b: nat, ghost made: nat, ghost walk: seq<nat>)
    requires WellFormed(q.src) && q.limit > 0 && PointsAt(q.src, cursor, a)
    ensures Ends(q, r, calls, a, walk, b) && made == calls + |walk|
    ensures r.Page? ==> PageOf(q, r, a, b) && made == calls + r.calls
    ensures !r.Page? ==> r == DbError || (r == LacksKey && (UsesAlias(q.paths) || NestedKey(q.src, q.paths, q.names)))
    ensures made > calls && (r == DbError <==> q.db.fails(made - 1))
    ensures forall n :: calls <= n < made - 1 ==> !q.db.fails(n)
  {
    var input := new QueryInput(cursor, q.paths, q.names);
    r, b, walk := QueryFiltered(q, input, calls, a);
    made := calls + |walk|;
    forall n | calls <= n < made - 1 ensures !q.db.fails(n) {
      assert WentOn(q, calls, a, walk, n - calls);
    }
  }

  /**
   Following the cursor from nil until nil. It ends, and with the whole filtered
   partition, unless a raw call failed or a page met a nested key.
   */
  method ListAll(q: Query) returns (r: Listed, ghost made: nat)
    requires WellFormed(q.src)
    ensures r.All? ==> Lists(q, r.items, ProjectAll(Filter(q.src.items, q.src.matches), q.paths, q.names))
    ensures r.Stopped? ==> r.why in {BadLimit, DbError, LacksKey}
    ensures r == Stopped(BadLimit) <==> q.limit <= 0
    ensures r == Stopped(LacksKey) ==> UsesAlias(q.paths) || NestedKey(q.src, q.paths, q.names)
    ensures q.limit > 0 ==> made > 0 && (r == Stopped(DbError) <==> q.db.fails(made - 1))
    ensures forall n :: 0 <= n < made - 1 ==> !q.db.fails(n)
  {
    made := 0;
    if q.limit <= 0 { return Stopped(BadLimit), 0; }
    var all: seq<Item>, cursor, calls: nat := [], None, 0;
    ghost var b := 0;
    assert Listing(q, 0, 0) == [];
    while true
      invariant b <= |q.src.items| && PointsAt(q.src, cursor, b) && Lists(q, all, Listing(q, 0, b))
      invariant forall n :: 0 <= n < calls ==> !q.db.fails(n)
      decreases |q.src.items| - b
    {
      var page;
      ghost var end, walk;
      page, end, made, walk := NextPage(q, cursor, calls, b);
      if !page.Page? { return Stopped(page), made; }
      ListingSplits(q, 0, b, end);
      all, calls, b := all + page.items, calls + page.calls, end;
      if page.next.None? {
        assert q.src.items[0..b] == q.src.items;
        return All(all), made;
      }
      cursor := page.next;
    }
  }

  // ---- A query that lacks its key ---------------------------------------------------------

  function KeyedItem(keyNames: set<string>, text: string): Item { map k | k in keyNames :: Scalar(text) }

  /** Three matching items, a page of two; the first call evaluates one item, the second the other two. */
  function ThreeItems(keyNames: set<string>, paths: Option<seq<Path>>, names: map<string, string>): Query {
    var items := [KeyedItem(keyNames, "1"), KeyedItem(keyNames, "2"), KeyedItem(keyNames, "3")];
    Query(Source(items, keyNames, (item: Item) => true),
          Choices(n => false, n => n + 1, n => false), paths, names, 2, 0)
  }

  lemma KeyedItemsDiffer(keyNames: set<string>, a: string, b: string)
    requires keyNames != {} && a != b
    ensures KeyOf(KeyedItem(keyNames, a), keyNames) != KeyOf(KeyedItem(keyNames, b), keyNames)
  {
    var k :| k in keyNames;
    assert KeyOf(KeyedItem(keyNames, a), keyNames)[k] == Scalar(a) &&
      KeyOf(KeyedItem(keyNames, b), keyNames)[k] == Scalar(b);
  }

  lemma ThreeItemsAreWellFormed(keyNames: set<string>, paths: Option<seq<Path>>, names: map<string, string>)
    requires keyNames != {}
    ensures WellFormed(ThreeItems(keyNames, paths, names).src)
  {
    KeyedItemsDiffer(keyNames, "1", "2");
    KeyedItemsDiffer(keyNames, "1", "3");
    KeyedItemsDiffer(keyNames, "2", "3");
  }

  lemma ThreeItemsAreCut(
    keyNames: set<string>, paths: Option<seq<Path>>, names: map<string, string>, walk: seq<nat>, r: PageResult, b: nat)
    requires var q := ThreeItems(keyNames, paths, names);
             Ends(q, r, 0, 0, walk, b)
    ensures walk == [0, 1]
  {
    var q := ThreeItems(keyNames, paths, names);
    EveryItemMatches(q.src.items[0..1], q.src.matches);
    EveryItemMatches(q.src.items[0..3], q.src.matches);
    assert EndOf(q, 0, 0) == 1 && EndOf(q, 1, 1) == 3;
    assert |walk| > 1 ==> WentOn(q, 0, 0, walk, 0);
    assert |walk| > 2 ==> WentOn(q, 0, 0, walk, 1);
  }

  lemma {:induction false} EveryItemMatches(s: seq<Item>, f: Item -> bool)
    requires forall x :: f(x)
    ensures Filter(s, f) == s
  {
    if s != [] { EveryItemMatches(s[..|s| - 1], f); }
  }

  /**
   The branch is reached: for every key schema and projection, this query fails
   exactly if a key is nested, and pages otherwise.
   */
  method QueryThreeItems(keyNames: set<string>, paths: Option<seq<Path>>, names: map<string, string>)
    returns (r: PageResult)
    requires keyNames != {}
    ensures UsesAlias(paths) || (r == LacksKey <==> NestedKey(ThreeItems(keyNames, paths, names).src, paths, names))
    ensures r != LacksKey ==> r.Page? && |r.items| == 2 && r.next.Some?
  {
    var q := ThreeItems(keyNames, paths, names);
    ThreeItemsAreWellFormed(keyNames, paths, names);
    var input := new QueryInput(None, paths, names);
    ghost var b, walk;
    r, b, walk := QueryFiltered(q, input, 0, 0);
    ThreeItemsAreCut(keyNames, paths, names, walk, r, b);
    EveryItemMatches(q.src.items[0..3], q.src.matches);
  }
}
