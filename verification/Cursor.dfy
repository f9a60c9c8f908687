/**
 The opaque pagination cursor (dynamo/cursor.go). JSON and the owner's hash are
 parameters: a codec whose unmarshal undoes its marshal on every payload, and
 any tag function.
 */
module Cursor {
  import opened Options
  import opened Base64

  /** An attribute value; Other is any type a key cannot have. */
  datatype Attr = S(s: string) | N(n: string) | B(b: seq<Byte>) | Other

  type Key = map<string, Attr>

  /** A key attribute with its type kept, so a number stays a number. */
  datatype Plain = Plain(t: string, v: string)

  datatype Payload = Payload(key: map<string, Plain>, prev: map<string, Plain>, owner: string)

  /** JSON (marshal and unmarshal) and the owner's tag. */
  datatype Codec = Codec(marshal: Payload -> seq<Byte>, unmarshal: seq<Byte> -> Option<Payload>, tag: string -> string)

  /** JSON loses nothing of a payload and is never the empty text. */
  ghost predicate Faithful(c: Codec) {
    forall p :: c.marshal(p) != [] && c.unmarshal(c.marshal(p)) == Some(p)
  }

  /** A payload as text and back: JSON inside unpadded URL base64. */
  datatype Wire = Wire(write: Payload -> string, read: string -> Option<Payload>, tag: string -> string)

  function ReadWith(c: Codec, text: string): Option<Payload> {
    match DecodeRawURL(text)
    case None => None
    case Some(raw) => c.unmarshal(raw)
  }

  function WireOf(c: Codec): Wire {
    Wire((p: Payload) => EncodeRawURL(c.marshal(p)), (text: string) => ReadWith(c, text), c.tag)
  }

  ghost predicate Sound(w: Wire) { forall p :: w.write(p) != "" && w.read(w.write(p)) == Some(p) }

  lemma WireIsSound(c: Codec)
    requires Faithful(c)
    ensures Sound(WireOf(c))
  {
    forall p ensures WireOf(c).write(p) != "" && WireOf(c).read(WireOf(c).write(p)) == Some(p) {
      RawURLRoundTrip(c.marshal(p));
    }
  }

  // ---- Keys and their plain form -----------------------------------------------------------

  predicate IsKey(k: Key) { forall a :: a in k ==> !k[a].Other? }

  function PlainOf(a: Attr): Plain {
    match a
    case S(s) => Plain("S", s)
    case N(n) => Plain("N", n)
    case B(b) => Plain("B", EncodeStd(b))
    case Other => Plain("", "")
  }

  function AttrOf(p: Plain): Option<Attr> {
    if p.t == "S" then Some(S(p.v))
    else if p.t == "N" then Some(N(p.v))
    else if p.t == "B" then
      match DecodeStd(p.v)
      case None => None
      case Some(b) => Some(B(b))
    else None
  }

  function PlainKey(k: Key): map<string, Plain> { map a | a in k :: PlainOf(k[a]) }

  predicate Readable(m: map<string, Plain>) { forall a :: a in m ==> AttrOf(m[a]).Some? }

  function KeyFrom(m: map<string, Plain>): Key
    requires Readable(m)
  {
    map a | a in m :: AttrOf(m[a]).value
  }

  method KeyToPlain(k: Key) returns (ok: bool, out: map<string, Plain>)
    ensures ok <==> IsKey(k)
    ensures ok ==> out == PlainKey(k)
  {
    out := map[];
    var left := k.Keys;
    while left != {}
      invariant left <= k.Keys && out.Keys == k.Keys - left
      invariant forall a :: a in out ==> !k[a].Other? && out[a] == PlainOf(k[a])
      decreases left
    {
      var a :| a in left;
      match k[a] {
        case S(s) => out := out[a := Plain("S", s)];
        case N(n) => out := out[a := Plain("N", n)];
        case B(b) => out := out[a := Plain("B", EncodeStd(b))];
        case Other => return false, map[];
      }
      left := left - {a};
    }
    ok := true;
  }

  method PlainToKey(m: map<string, Plain>) returns (ok: bool, out: Key)
    ensures ok <==> Readable(m)
    ensures ok ==> out == KeyFrom(m)
  {
    out := map[];
    var left := m.Keys;
    while left != {}
      invariant left <= m.Keys && out.Keys == m.Keys - left
      invariant forall a :: a in out ==> AttrOf(m[a]) == Some(out[a])
      decreases left
    {
      var a :| a in left;
      if m[a].t == "S" {
        out := out[a := S(m[a].v)];
      } else if m[a].t == "N" {
        out := out[a := N(m[a].v)];
      } else if m[a].t == "B" {
        var b := DecodeStd(m[a].v);
        if b.None? { return false, map[]; }
        out := out[a := B(b.value)];
      } else {
        return false, map[];
      }
      left := left - {a};
    }
    ok := true;
  }

  /** The plain form keeps every key attribute, binary ones included. */
  lemma PlainRoundTrip(k: Key)
    requires IsKey(k)
    ensures Readable(PlainKey(k)) && KeyFrom(PlainKey(k)) == k
  {
    forall a | a in k ensures AttrOf(PlainOf(k[a])) == Some(k[a]) {
      if k[a].B? { StdRoundTrip(k[a].b); }
    }
  }

  // ---- Cursors --------------------------------------------------------------------------------

  function EncodePayload(w: Wire, p: Payload): string { w.write(p) }

  /** The payload of a cursor, if it is well formed and was issued for this owner. */
  function DecodePayload(w: Wire, cursor: string, owner: string): Option<Payload> {
    match w.read(cursor)
    case None => None
    case Some(p) => if p.key == map[] || p.owner != w.tag(owner) then None else Some(p)
  }

  datatype Decoded = FromStart | FromKey(key: Key) | Invalid

  function Encode(w: Wire, key: Key, owner: string): string {
    if key == map[] || !IsKey(key) then "" else EncodePayload(w, Payload(PlainKey(key), map[], w.tag(owner)))
  }

  method EncodeCursor(w: Wire, key: Key, owner: string) returns (cursor: string)
    ensures cursor == Encode(w, key, owner)
  {
    if key == map[] { return ""; }
    var ok, plain := KeyToPlain(key);
    if !ok { return ""; }
    cursor := EncodePayload(w, Payload(plain, map[], w.tag(owner)));
  }

  function Decode(w: Wire, cursor: string, owner: string): Decoded {
    if cursor == "" then FromStart
    else
      match DecodePayload(w, cursor, owner)
      case None => Invalid
      case Some(p) => if Readable(p.key) then FromKey(KeyFrom(p.key)) else Invalid
  }

  method DecodeCursor(w: Wire, cursor: string, owner: string) returns (d: Decoded)
    ensures d == Decode(w, cursor, owner)
  {
    if cursor == "" { return FromStart; }
    var p := DecodePayload(w, cursor, owner);
    if p.None? { return Invalid; }
    var ok, key := PlainToKey(p.value.key);
    return if ok then FromKey(key) else Invalid;
  }

  /** What a cursor carries comes back, and only for an owner with the same tag. */
  lemma PayloadRoundTrip(w: Wire, p: Payload, owner: string)
    requires Sound(w) && p.key != map[]
    ensures EncodePayload(w, p) != ""
    ensures DecodePayload(w, EncodePayload(w, p), owner) == if p.owner == w.tag(owner) then Some(p) else None
  {}

  /**
   DecodeCursor undoes EncodeCursor for every non-empty key; under another
   owner's tag it refuses. What is not a key gives no cursor at all.
   */
  lemma CursorRoundTrip(w: Wire, key: Key, owner: string, reader: string)
    requires Sound(w)
    ensures key == map[] || !IsKey(key) <==> Encode(w, key, owner) == ""
    ensures key != map[] && IsKey(key) ==>
              Decode(w, Encode(w, key, owner), reader) ==
                if w.tag(owner) == w.tag(reader) then FromKey(key) else Invalid
  {
    if key == map[] || !IsKey(key) { return; }
    NonEmptyPlain(key);
    PayloadRoundTrip(w, Payload(PlainKey(key), map[], w.tag(owner)), reader);
    PlainRoundTrip(key);
  }

  lemma NonEmptyPlain(key: Key)
    requires key != map[]
    ensures PlainKey(key) != map[]
  {
    var a :| a in key;
    assert a in PlainKey(key);
  }

  // ---- Paging both ways -------------------------------------------------------------------------

  datatype Envelope = Envelope(next: Option<string>, hasNext: bool, previous: Option<string>, hasPrevious: bool)

  /** The cursors of one page, from its continuation key and the cursor it was asked with. */
  function PageWithPrevious(w: Wire, lek: Key, incoming: string, owner: string): Envelope {
    var p := if incoming == "" then None else DecodePayload(w, incoming, owner);
    var prev := if p.Some? then p.value.key else map[];
    var next := if IsKey(lek) && lek != map[]
                then Some(EncodePayload(w, Payload(PlainKey(lek), prev, w.tag(owner)))) else None;
    Envelope(next, next.Some?,
             if p.Some? && p.value.prev != map[]
             then Some(EncodePayload(w, Payload(p.value.prev, map[], w.tag(owner)))) else None,
             incoming != "")
  }

  method NewPageWithPrevious(w: Wire, lek: Key, incoming: string, owner: string) returns (e: Envelope)
    ensures e == PageWithPrevious(w, lek, incoming, owner)
  {
    var prevKey: map<string, Plain> := map[];
    var previous := None;
    if incoming != "" {
      var p := DecodePayload(w, incoming, owner);
      if p.Some? {
        prevKey := p.value.key;
        if p.value.prev != map[] { previous := Some(EncodePayload(w, Payload(p.value.prev, map[], w.tag(owner)))); }
      }
    }
    var next := None;
    var ok, plain := KeyToPlain(lek);
    if ok && |plain| > 0 { next := Some(EncodePayload(w, Payload(plain, prevKey, w.tag(owner)))); }
    assert ok ==> (|plain| > 0 <==> lek != map[]) by { if lek != map[] && ok { NonEmptyPlain(lek); } }
    e := Envelope(next, next.Some?, previous, incoming != "");
  }

  /** A cursor from a list that pages forward only gives no way back. */
  lemma EncodedOffersNoPrevious(w: Wire, key: Key, lek: Key, owner: string)
    requires Sound(w)
    ensures var e := PageWithPrevious(w, lek, Encode(w, key, owner), owner);
            e.previous.None? && (e.hasPrevious <==> key != map[] && IsKey(key))
  {
    CursorRoundTrip(w, key, owner, owner);
    if key != map[] && IsKey(key) {
      NonEmptyPlain(key);
      PayloadRoundTrip(w, Payload(PlainKey(key), map[], w.tag(owner)), owner);
    }
  }

  /** Continuation keys of consecutive pages: leks[i] ends page i (pages count from zero). */
  ghost predicate Listing(leks: seq<Key>) { forall i :: 0 <= i < |leks| ==> IsKey(leks[i]) && leks[i] != map[] }

  /** The cursor page i is asked with when a client walks forward from the start. */
  function Asked(w: Wire, leks: seq<Key>, owner: string, i: nat): string
    requires i <= |leks|
  {
    if i == 0 then ""
    else
      match PageWithPrevious(w, leks[i - 1], Asked(w, leks, owner, i - 1), owner).next
      case None => ""
      case Some(next) => next
  }

  /** At any depth: the page's own start key and at most the one before. */
  function Carried(w: Wire, leks: seq<Key>, owner: string, i: nat): Payload
    requires 1 <= i <= |leks|
  {
    Payload(PlainKey(leks[i - 1]), if i >= 2 then PlainKey(leks[i - 2]) else map[], w.tag(owner))
  }

  /** The next cursor remembers where this page started, and nothing further back. */
  lemma NextRemembersOne(w: Wire, lek: Key, incoming: string, owner: string)
    requires IsKey(lek) && lek != map[]
    ensures var p := DecodePayload(w, incoming, owner);
            PageWithPrevious(w, lek, incoming, owner).next ==
              Some(EncodePayload(
                w, Payload(PlainKey(lek), if incoming != "" && p.Some? then p.value.key else map[], w.tag(owner))))
  {}

  lemma CarriedComesBack(w: Wire, leks: seq<Key>, owner: string, i: nat)
    requires Sound(w) && Listing(leks) && 1 <= i <= |leks|
    ensures EncodePayload(w, Carried(w, leks, owner, i)) != ""
    ensures DecodePayload(w, EncodePayload(w, Carried(w, leks, owner, i)), owner) == Some(Carried(w, leks, owner, i))
  {
    NonEmptyPlain(leks[i - 1]);
    PayloadRoundTrip(w, Carried(w, leks, owner, i), owner);
  }

  lemma {:induction false} AskedCarriesTwoKeys(w: Wire, leks: seq<Key>, owner: string, i: nat)
    requires Sound(w) && Listing(leks) && 1 <= i <= |leks|
    ensures Asked(w, leks, owner, i) == EncodePayload(w, Carried(w, leks, owner, i)) != ""
    ensures DecodePayload(w, Asked(w, leks, owner, i), owner) == Some(Carried(w, leks, owner, i))
  {
    var before := Asked(w, leks, owner, i - 1);
    if i >= 2 { AskedCarriesTwoKeys(w, leks, owner, i - 1); }
    NextRemembersOne(w, leks[i - 1], before, owner);
    assert Asked(w, leks, owner, i) == EncodePayload(w, Carried(w, leks, owner, i));
    CarriedComesBack(w, leks, owner, i);
  }

  /**
   Walking forward, page i (from zero) starts at leks[i - 1], whatever its own
   end is. The first two pages offer no previous cursor; from the third on it
   leads back to exactly the start key of the page before, and hasPrevious
   holds from the second on.
   */
  lemma PreviousLeadsBack(w: Wire, leks: seq<Key>, owner: string, i: nat, lek: Key)
    requires Sound(w) && Listing(leks) && i <= |leks|
    ensures var e := PageWithPrevious(w, lek, Asked(w, leks, owner, i), owner);
            && (e.hasNext <==> e.next.Some?) && (e.hasNext <==> IsKey(lek) && lek != map[])
            && (i < |leks| && lek == leks[i] ==> e.next == Some(Asked(w, leks, owner, i + 1)))
            && (e.hasPrevious <==> i >= 1)
            && (e.previous.Some? <==> i >= 2)
            && (i >= 1 ==> Decode(w, Asked(w, leks, owner, i), owner) == FromKey(leks[i - 1]))
            && (i >= 2 ==> Decode(w, e.previous.value, owner) == FromKey(leks[i - 2]))
  {
    if i >= 1 {
      AskedCarriesTwoKeys(w, leks, owner, i);
      PlainRoundTrip(leks[i - 1]);
    }
    if i >= 2 {
      NonEmptyPlain(leks[i - 2]);
      CursorRoundTrip(w, leks[i - 2], owner, owner);
    }
  }

  // ---- Clients that go forward and back -----------------------------------------------------------

  datatype Move = Forward | Back

  /** Where a client stands: the page it reads and the cursor it asked for it with. */
  datatype Spot = Spot(page: int, cursor: string)

  /** The envelope of the page read there; the last page has no continuation key. */
  function Sees(w: Wire, leks: seq<Key>, owner: string, at: Spot): Envelope {
    PageWithPrevious(w, if 0 <= at.page < |leks| then leks[at.page] else map[], at.cursor, owner)
  }

  function Follow(at: Spot, e: Envelope, move: Move): Option<Spot> {
    match move
    case Forward => if e.next.None? then None else Some(Spot(at.page + 1, e.next.value))
    case Back => if e.previous.None? then None else Some(Spot(at.page - 1, e.previous.value))
  }

  /** Following the cursors handed out, from the first page; None when a move has no cursor to follow. */
  function Walk(w: Wire, leks: seq<Key>, owner: string, moves: seq<Move>): Option<Spot> {
    if moves == [] then Some(Spot(0, ""))
    else
      match Walk(w, leks, owner, moves[..|moves| - 1])
      case None => None
      case Some(at) => Follow(at, Sees(w, leks, owner, at), moves[|moves| - 1])
  }

  /** The client came to this page from the page before it. */
  predicate CameForward(moves: seq<Move>) { moves != [] && moves[|moves| - 1] == Forward }

  /**
   On page `page` of 0..last: forward is open until the last page, hasPrevious
   holds from the second on, and a previous cursor is there on pages from the
   third on that were reached going forward.
   */
  predicate Offers(e: Envelope, last: nat, page: int, forward: bool) {
    && (e.hasNext <==> page < last) && (e.next.Some? <==> page < last)
    && (e.hasPrevious <==> page >= 1) && (e.previous.Some? <==> page >= 2 && forward)
  }

  /** The payload behind page i: the page before it is remembered only on the way forward. */
  function Standing(w: Wire, leks: seq<Key>, owner: string, i: nat, forward: bool): Payload
    requires 1 <= i <= |leks|
  {
    Payload(PlainKey(leks[i - 1]), if i >= 2 && forward then PlainKey(leks[i - 2]) else map[], w.tag(owner))
  }

  ghost predicate InStep(w: Wire, leks: seq<Key>, owner: string, at: Spot, forward: bool) {
    && 0 <= at.page <= |leks|
    && (at.page == 0 ==> at.cursor == "")
    && (at.page >= 1 ==> at.cursor == EncodePayload(w, Standing(w, leks, owner, at.page, forward)))
  }

  lemma StandingComesBack(w: Wire, leks: seq<Key>, owner: string, i: nat, forward: bool)
    requires Sound(w) && Listing(leks) && 1 <= i <= |leks|
    ensures var p := Standing(w, leks, owner, i, forward);
            && EncodePayload(w, p) != "" && DecodePayload(w, EncodePayload(w, p), owner) == Some(p)
            && Decode(w, EncodePayload(w, p), owner) == FromKey(leks[i - 1])
            && (p.prev != map[] <==> i >= 2 && forward)
  {
    NonEmptyPlain(leks[i - 1]);
    if i >= 2 { NonEmptyPlain(leks[i - 2]); }
    PlainRoundTrip(leks[i - 1]);
    PayloadRoundTrip(w, Standing(w, leks, owner, i, forward), owner);
  }

  /** What the server makes of the cursor of a client in step. */
  predicate Understood(w: Wire, leks: seq<Key>, owner: string, at: Spot, forward: bool)
    requires 0 <= at.page <= |leks|
  {
    if at.page == 0 then at.cursor == ""
    else
      var p := Standing(w, leks, owner, at.page, forward);
      && at.cursor != "" && DecodePayload(w, at.cursor, owner) == Some(p)
      && (p.prev != map[] <==> at.page >= 2 && forward)
  }

  lemma InStepIsUnderstood(w: Wire, leks: seq<Key>, owner: string, at: Spot, forward: bool)
    requires Sound(w) && Listing(leks) && InStep(w, leks, owner, at, forward)
    ensures Understood(w, leks, owner, at, forward)
    ensures Decode(w, at.cursor, owner) == if at.page == 0 then FromStart else FromKey(leks[at.page - 1])
  {
    if at.page >= 1 { StandingComesBack(w, leks, owner, at.page, forward); }
  }

  lemma SeesForward(w: Wire, leks: seq<Key>, owner: string, at: Spot, forward: bool)
    requires Listing(leks) && 0 <= at.page <= |leks| && Understood(w, leks, owner, at, forward)
    ensures var e := Sees(w, leks, owner, at);
            && (e.next.Some? <==> at.page < |leks|) && (e.hasNext <==> at.page < |leks|)
            && (e.next.Some? ==> InStep(w, leks, owner, Spot(at.page + 1, e.next.value), true))
  {}

  lemma SeesBack(w: Wire, leks: seq<Key>, owner: string, at: Spot, forward: bool)
    requires 0 <= at.page <= |leks| && Understood(w, leks, owner, at, forward)
    ensures var e := Sees(w, leks, owner, at);
            && (e.previous.Some? <==> at.page >= 2 && forward) && (e.hasPrevious <==> at.page >= 1)
            && (e.previous.Some? ==> InStep(w, leks, owner, Spot(at.page - 1, e.previous.value), false))
  {}

  /** Both cursors of an envelope keep the client in step. */
  ghost predicate Leads(w: Wire, leks: seq<Key>, owner: string, page: int, e: Envelope) {
    && (e.next.Some? ==> InStep(w, leks, owner, Spot(page + 1, e.next.value), true))
    && (e.previous.Some? ==> InStep(w, leks, owner, Spot(page - 1, e.previous.value), false))
  }

  /** The cursor stands for the page the client thinks it reads, and that page's envelope is right. */
  predicate OnItsPage(w: Wire, leks: seq<Key>, owner: string, at: Spot, forward: bool) {
    && 0 <= at.page <= |leks|
    && Decode(w, at.cursor, owner) == (if at.page == 0 then FromStart else FromKey(leks[at.page - 1]))
    && Offers(Sees(w, leks, owner, at), |leks|, at.page, forward)
  }

  lemma SeesInStep(w: Wire, leks: seq<Key>, owner: string, at: Spot, forward: bool)
    requires Sound(w) && Listing(leks) && InStep(w, leks, owner, at, forward)
    ensures OnItsPage(w, leks, owner, at, forward)
    ensures Leads(w, leks, owner, at.page, Sees(w, leks, owner, at))
  {
    InStepIsUnderstood(w, leks, owner, at, forward);
    SeesForward(w, leks, owner, at, forward);
    SeesBack(w, leks, owner, at, forward);
  }

  lemma FollowInStep(w: Wire, leks: seq<Key>, owner: string, at: Spot, e: Envelope, move: Move)
    requires Leads(w, leks, owner, at.page, e) && Follow(at, e, move).Some?
    ensures InStep(w, leks, owner, Follow(at, e, move).value, move == Forward)
  {}

  lemma {:induction false} WalkInStep(w: Wire, leks: seq<Key>, owner: string, moves: seq<Move>)
    requires Sound(w) && Listing(leks) && Walk(w, leks, owner, moves).Some?
    ensures InStep(w, leks, owner, Walk(w, leks, owner, moves).value, CameForward(moves))
  {
    if moves != [] {
      var init := moves[..|moves| - 1];
      WalkInStep(w, leks, owner, init);
      var at := Walk(w, leks, owner, init).value;
      SeesInStep(w, leks, owner, at, CameForward(init));
      FollowInStep(w, leks, owner, at, Sees(w, leks, owner, at), moves[|moves| - 1]);
    }
  }

  /**
   However a client goes forward and back by the cursors it is given, the
   cursor it holds is for the page it thinks it reads, and what that page
   offers depends on how it was reached: back works once, then not again.
   */
  lemma EveryWalkStaysInStep(w: Wire, leks: seq<Key>, owner: string, moves: seq<Move>)
    requires Sound(w) && Listing(leks) && Walk(w, leks, owner, moves).Some?
    ensures OnItsPage(w, leks, owner, Walk(w, leks, owner, moves).value, CameForward(moves))
  {
    WalkInStep(w, leks, owner, moves);
    SeesInStep(w, leks, owner, Walk(w, leks, owner, moves).value, CameForward(moves));
  }

  /**
   A page with hasPrevious but no previous cursor is documented to be the
   second, so that the page before it is reached with no cursor. That holds
   exactly unless the client came back to a page from the third on.
   */
  lemma NullPreviousMeansSecondPage(w: Wire, leks: seq<Key>, owner: string, moves: seq<Move>)
    requires Sound(w) && Listing(leks) && Walk(w, leks, owner, moves).Some?
    ensures var at := Walk(w, leks, owner, moves).value;
            var e := Sees(w, leks, owner, at);
            (e.hasPrevious && e.previous.None? ==> at.page == 1) <==> at.page < 2 || CameForward(moves)
  {
    EveryWalkStaysInStep(w, leks, owner, moves);
  }

  /** Such a walk: forward three times and back once. The client reads page 2 and is told to go to the first page. */
  lemma BackTwiceIsLost(w: Wire, leks: seq<Key>, owner: string)
    requires Sound(w) && Listing(leks) && |leks| >= 3
    ensures var moves := [Forward, Forward, Forward, Back];
            && Walk(w, leks, owner, moves).Some? && Walk(w, leks, owner, moves).value.page == 2
            && var e := Sees(w, leks, owner, Walk(w, leks, owner, moves).value); e.hasPrevious && e.previous.None?
  {
    var m1: seq<Move>, m2, m3, m4 := [Forward], [Forward, Forward], [Forward, Forward, Forward],
      [Forward, Forward, Forward, Back];
    assert m1[..0] == [] && m2[..1] == m1 && m3[..2] == m2 && m4[..3] == m3;
    EveryWalkStaysInStep(w, leks, owner, []);
    EveryWalkStaysInStep(w, leks, owner, m1);
    EveryWalkStaysInStep(w, leks, owner, m2);
    EveryWalkStaysInStep(w, leks, owner, m3);
    EveryWalkStaysInStep(w, leks, owner, m4);
  }

  /** Only the empty cursor means the start: every other one gives a non-empty key of this owner's or is refused. */
  lemma OnlyEmptyStartsOver(w: Wire, cursor: string, owner: string)
    ensures Decode(w, cursor, owner) == FromStart <==> cursor == ""
    ensures Decode(w, cursor, owner).FromKey? ==>
              var k := Decode(w, cursor, owner).key;
              k != map[] && IsKey(k) && w.read(cursor).Some? && w.read(cursor).value.owner == w.tag(owner)
  {
    if Decode(w, cursor, owner).FromKey? {
      var m := w.read(cursor).value.key;
      var a :| a in m;
      assert a in KeyFrom(m);
      forall b | b in m ensures !AttrOf(m[b]).value.Other? {}
    }
  }
}
