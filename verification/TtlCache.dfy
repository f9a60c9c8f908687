/** The in-process cache with a time-to-live per entry (ttlcache/ttlcache.go). */
module TtlCache {
  import opened Options

  datatype Entry<+V> = Entry(v: V, exp: int)

  function LiveOnly<V>(m: map<string, Entry<V>>, now: int): map<string, Entry<V>> {
    map k | k in m && now < m[k].exp :: m[k]
  }

  /** What Set leaves behind: at capacity the expired go first, and if that is not enough, everything. */
  function Room<V>(m: map<string, Entry<V>>, key: string, now: int, max: int): map<string, Entry<V>> {
    if key in m || |m| < max then m
    else if |LiveOnly(m, now)| >= max then map[]
    else LiveOnly(m, now)
  }

  /** Set never grows past a positive capacity and never alters another key's entry. */
  lemma RoomBounds<V>(m: map<string, Entry<V>>, key: string, now: int, max: int, e: Entry<V>)
    requires |m| <= max && max >= 1
    ensures |Room(m, key, now, max)[key := e]| <= max
    ensures forall k :: k in Room(m, key, now, max) ==> k in m && Room(m, key, now, max)[k] == m[k]
  {}

  /**
   Set drops an entry only to make room: when the table is full of other keys it
   drops the expired, and a live one only when it is full of live ones.
   */
  lemma RoomKeeps<V>(m: map<string, Entry<V>>, key: string, now: int, max: int, k: string)
    requires k in m && k !in Room(m, key, now, max)
    ensures key !in m && |m| >= max
    ensures now < m[k].exp ==> forall live: set<string> :: Live(m, now, live) ==> |live| >= max
  {
    if now < m[k].exp {
      forall live: set<string> | Live(m, now, live) ensures |live| >= max {
        assert live == LiveOnly(m, now).Keys;
      }
    }
  }

  /** These are the keys of the entries that have not expired. */
  ghost predicate Live<V>(m: map<string, Entry<V>>, now: int, live: set<string>) {
    forall k :: k in live <==> k in m && now < m[k].exp
  }

  class Cache<V(0)> {
    const ttl: int
    const max: int
    var m: map<string, Entry<V>>

    constructor (ttl: int, max: int)
      ensures this.ttl == ttl && this.max == max && m == map[]
    {
      this.ttl, this.max, m := ttl, max, map[];
    }

    /** The live value for key; an expired entry is dropped on the way. */
    method Get(key: string, now: int) returns (v: Option<V>)
      modifies this
      ensures v == if key in old(m) && now < old(m)[key].exp then Some(old(m)[key].v) else None
      ensures m == if v.Some? then old(m) else old(m) - {key}
    {
      if key !in m || !(now < m[key].exp) {
        m := m - {key};
        return None;
      }
      return Some(m[key].v);
    }

    method Set(key: string, v: V, now: int, later: int)
      modifies this
      ensures m == Room(old(m), key, now, max)[key := Entry(v, later + ttl)]
      ensures max >= 1 && |old(m)| <= max ==> |m| <= max
    {
      if max >= 1 && |m| <= max { RoomBounds(m, key, now, max, Entry(v, later + ttl)); }
      if key !in m && |m| >= max {
        DropExpired(now);
        if |m| >= max { m := map[]; }
      }
      m := m[key := Entry(v, later + ttl)];
    }

    method DropExpired(now: int)
      modifies this
      ensures m == LiveOnly(old(m), now)
    {
      var left := m.Keys;
      while left != {}
        invariant left <= old(m).Keys
        invariant forall k :: k in m <==> k in old(m) && (k in left || now < old(m)[k].exp)
        invariant forall k :: k in m ==> m[k] == old(m)[k]
        decreases left
      {
        var k :| k in left;
        if !(now < m[k].exp) { m := m - {k}; }
        left := left - {k};
      }
    }

    method Delete(key: string)
      modifies this
      ensures m == old(m) - {key}
    {
      m := m - {key};
    }
  }
}
