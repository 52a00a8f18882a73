/** The failed-login limiter: a table of timed attempt records, one per key.
    Times are integer nanoseconds; ZERO_TIME stands for Go's zero time, which no record that was
    never locked exceeds. Every operation takes the clock reading it works with. */
module Security {
  import opened Prelude

  const SECOND: int := 1_000_000_000
  const MINUTE: int := 60 * SECOND
  const ZERO_TIME: int := 0

  datatype Params = Params(max: int, window: int, lockout: int) {
    predicate Valid() { max > 0 && window > 0 && lockout > 0 }
  }

  /** The value of one attempt record; also the form in which a record is exchanged (LockEntry). */
  datatype Record = Record(count: int, first: int, lockedUntil: int)

  type Entries = map<string, Record>

  /** What NewLimiter makes of its arguments. */
  function Defaulted(max: int, window: int, lockout: int): (p: Params)
    ensures p.Valid()
    ensures (max > 0 ==> p.max == max) && (window > 0 ==> p.window == window) && (lockout > 0 ==> p.lockout == lockout)
    ensures max <= 0 ==> p.max == 5
    ensures (window <= 0 ==> p.window == 900 * SECOND) && (lockout <= 0 ==> p.lockout == 900 * SECOND)
  {
    Params(if max <= 0 then 5 else max,
           if window <= 0 then 15 * MINUTE else window,
           if lockout <= 0 then 15 * MINUTE else lockout)
  }

  // ----- specification functions on the table of records

  predicate OutsideWindow(p: Params, r: Record, now: int) { now - r.first > p.window }

  /** A record that gc, Snapshot and Restore all drop. */
  predicate Expired(p: Params, r: Record, now: int) { now > r.lockedUntil && OutsideWindow(p, r, now) }

  predicate LockedAt(e: Entries, key: string, now: int) { key in e && now < e[key].lockedUntil }

  function AllowedAnswer(e: Entries, key: string, now: int): (bool, int) {
    if LockedAt(e, key, now) then (false, e[key].lockedUntil) else (true, ZERO_TIME)
  }

  function AfterAllowed(p: Params, e: Entries, key: string, now: int): Entries {
    if key in e && !LockedAt(e, key, now) && OutsideWindow(p, e[key], now) then e - {key} else e
  }

  function Bumped(p: Params, r: Record, now: int): Record {
    Record(r.count + 1, r.first, if r.count + 1 >= p.max then now + p.lockout else r.lockedUntil)
  }

  /** The record a failure leaves behind: the one held so far, or a new one anchored at `now`. */
  function FailedRecord(p: Params, e: Entries, key: string, now: int): Record {
    Bumped(p, if key !in e || OutsideWindow(p, e[key], now) then Record(0, now, ZERO_TIME) else e[key], now)
  }

  function AfterFail(p: Params, e: Entries, key: string, now: int): Entries {
    e[key := FailedRecord(p, e, key, now)]
  }

  function AfterReset(e: Entries, key: string): Entries { e - {key} }

  /** A sweep that gets to look at `keys`; a complete gc pass looks at every key. */
  function AfterSweep(p: Params, e: Entries, keys: set<string>, now: int): Entries {
    map k | k in e && !(k in keys && Expired(p, e[k], now)) :: e[k]
  }

  predicate Kept(p: Params, r: Record, now: int) { r.count > 0 && !Expired(p, r, now) }

  function SnapshotOf(p: Params, e: Entries, now: int): Entries {
    map k | k in e && Kept(p, e[k], now) :: e[k]
  }

  function Restored(p: Params, e: Entries, st: Entries, now: int): Entries {
    (map k | k in st && k != "" && Kept(p, st[k], now) :: st[k]) + e
  }

  lemma RestoreStep(p: Params, held: Entries, done: Entries, k: string, r: Record, now: int)
    requires k !in done
    ensures var before := Restored(p, held, done, now);
            k in before <==> k in held
    ensures var before := Restored(p, held, done, now);
            Restored(p, held, done[k := r], now)
              == if k != "" && Kept(p, r, now) && k !in held then before[k := r] else before
  {
  }

  // ----- the limiter itself

  /** A record as the limiter stores it: shared by pointer and updated in place. */
  class AttemptRecord {
    var count: int
    var first: int
    var lockedUntil: int

    constructor (count: int, first: int, lockedUntil: int)
      ensures Value() == Record(count, first, lockedUntil)
    {
      this.count, this.first, this.lockedUntil := count, first, lockedUntil;
    }

    function Value(): Record
      reads this
    {
      Record(count, first, lockedUntil)
    }

    /** One more failure. */
    method Bump(p: Params, now: int) returns (locked: bool)
      modifies this
      ensures Value() == Bumped(p, old(Value()), now)
      ensures locked <==> count >= p.max
    {
      count := count + 1;
      if count >= p.max {
        lockedUntil := now + p.lockout;
        return true;
      }
      return false;
    }
  }

  class Limiter {
    const params: Params
    var entries: map<string, AttemptRecord>

    ghost var table: Entries              // the values of the records in `entries`
    ghost var cells: set<AttemptRecord>   // the records this limiter may write to

    /** `table` shows what `entries` holds, and no two keys share a record. */
    ghost predicate Valid()
      reads this, cells
    {
      && params.Valid()
      && table.Keys == entries.Keys
      && (forall k :: k in entries ==> entries[k] in cells && entries[k].Value() == table[k])
      && forall j, k :: j in entries && k in entries && j != k ==> entries[j] != entries[k]
    }

    constructor (max: int, window: int, lockout: int)
      ensures Valid() && table == map[] && fresh(cells)
      ensures params == Defaulted(max, window, lockout)
    {
      params := Defaulted(max, window, lockout);
      entries, table, cells := map[], map[], {};
    }

    method Allowed(key: string, now: int) returns (ok: bool, until: int)
      requires Valid()
      modifies this
      ensures Valid() && cells == old(cells)
      ensures (ok, until) == AllowedAnswer(old(table), key, now)
      ensures table == AfterAllowed(params, old(table), key, now)
      ensures !ok <==> key in old(table) && now < old(table)[key].lockedUntil
      ensures !ok ==> key in table && until == table[key].lockedUntil
      ensures ok ==> until == ZERO_TIME && (key in table ==> now - table[key].first <= params.window)
    {
      if key !in entries {
        return true, ZERO_TIME;
      }
      var e := entries[key];
      if now < e.lockedUntil {
        return false, e.lockedUntil;
      }
      if now - e.first > params.window {
        entries, table := entries - {key}, table - {key};
      }
      return true, ZERO_TIME;
    }

    method Fail(key: string, now: int) returns (locked: bool)
      requires Valid()
      modifies this, cells
      ensures Valid() && fresh(cells - old(cells))
      ensures table == AfterFail(params, old(table), key, now)
      ensures locked <==> table[key].count >= params.max
    {
      ghost var after := FailedRecord(params, table, key, now);
      if key !in entries || now - entries[key].first > params.window {
        var r := new AttemptRecord(0, now, ZERO_TIME);
        entries, cells := entries[key := r], cells + {r};
      }
      var e := entries[key];
      locked := e.Bump(params, now);
      table := table[key := after];
    }

    method Reset(key: string)
      requires Valid()
      modifies this
      ensures Valid() && cells == old(cells)
      ensures table == AfterReset(old(table), key)
    {
      entries, table := entries - {key}, table - {key};
    }

    /** One pass of the gc ticker. */
    method Gc(now: int)
      requires Valid()
      modifies this
      ensures Valid() && cells == old(cells)
      ensures table == AfterSweep(params, old(table), old(table).Keys, now)
      ensures forall k :: k in table ==> now <= table[k].lockedUntil || now - table[k].first <= params.window
    {
      var todo := entries.Keys;
      while todo != {}
        invariant Valid() && cells == old(cells)
        invariant todo <= entries.Keys <= old(table).Keys
        invariant forall k :: k in entries ==> table[k] == old(table)[k]
        invariant forall k :: k in old(table) && k !in todo ==> (k in entries <==> !Expired(params, old(table)[k], now))
        decreases todo
      {
        var k :| k in todo;
        var e := entries[k];
        if now > e.lockedUntil && now - e.first > params.window {
          Reset(k);
        }
        todo := todo - {k};
      }
    }

    method ActiveLocks(now: int) returns (n: nat)
      requires Valid()
      ensures n == |set k | k in table && LockedAt(table, k, now)|
    {
      n := 0;
      var todo := entries.Keys;
      ghost var counted: set<string> := {};
      while todo != {}
        invariant todo <= entries.Keys
        invariant n == |counted|
        invariant counted == set k | k in table && k !in todo && LockedAt(table, k, now)
        decreases todo
      {
        var k :| k in todo;
        if now < entries[k].lockedUntil {
          n := n + 1;
          counted := counted + {k};
        }
        todo := todo - {k};
      }
      assert counted == set k | k in table && LockedAt(table, k, now);
    }

    method Snapshot(now: int) returns (out: Entries)
      requires Valid()
      ensures out == SnapshotOf(params, table, now)
      ensures forall k :: k in out ==>
        out[k].count > 0 && (now <= out[k].lockedUntil || now - out[k].first <= params.window)
    {
      out := map[];
      var todo := entries.Keys;
      while todo != {}
        invariant todo <= entries.Keys
        invariant out == map k | k in table && k !in todo && Kept(params, table[k], now) :: table[k]
        decreases todo
      {
        var k :| k in todo;
        todo := todo - {k};
        var e := entries[k];
        if e.count <= 0 || (now > e.lockedUntil && now - e.first > params.window) {
          continue;
        }
        out := out[k := Record(e.count, e.first, e.lockedUntil)];
      }
    }

    /** One entry of a state: taken over unless it is dead, or the key is held already. */
    method RestoreOne(k: string, e: Record, now: int)
      requires Valid()
      modifies this
      ensures Valid() && cells >= old(cells) && fresh(cells - old(cells))
      ensures table == if k != "" && Kept(params, e, now) && k !in old(table) then old(table)[k := e] else old(table)
    {
      if e.count <= 0 || k == "" {
        return;
      }
      if now > e.lockedUntil && now - e.first > params.window {
        return;
      }
      if k !in entries {
        var r := new AttemptRecord(e.count, e.first, e.lockedUntil);
        entries, table, cells := entries[k := r], table[k := e], cells + {r};
      }
    }

    method Restore(st: Entries, now: int)
      requires Valid()
      modifies this
      ensures Valid() && fresh(cells - old(cells))
      ensures table == Restored(params, old(table), st, now)
      ensures forall k :: k in table && k !in old(table) ==>
        k != "" && table[k].count > 0 && (now <= table[k].lockedUntil || now - table[k].first <= params.window)
    {
      ghost var held := table;
      ghost var done: Entries := map[];
      var todo := st.Keys;
      while todo != {}
        invariant todo <= st.Keys && done.Keys == st.Keys - todo && forall k :: k in done ==> done[k] == st[k]
        invariant Valid() && fresh(cells - old(cells))
        invariant table == Restored(params, held, done, now)
        decreases todo
      {
        var k :| k in todo;
        todo := todo - {k};
        var e := st[k];
        RestoreStep(params, held, done, k, e, now);
        RestoreOne(k, e, now);
        done := done[k := e];
      }
      assert done == st;
    }
  }
}
