/** The shared lock table of a cluster: a node's push is joined with the row already there. */
module LockStore {
  import opened Security

  /** The exchanged form of a limiter (LimiterState). */
  datatype State = State(params: Params, entries: Entries)

  /** A JSON column: no row (or an empty one), text that does not decode, or an encoded state. */
  datatype Raw = Absent | Malformed | Encoded(state: State)

  /** `a` replaces `b`: it locks for longer, or as long with more failures. */
  predicate Beats(a: Record, b: Record) {
    a.lockedUntil > b.lockedUntil || (a.lockedUntil == b.lockedUntil && a.count > b.count)
  }

  function Merged(incoming: Entries, existing: Entries): Entries {
    map k | k in incoming.Keys + existing.Keys ::
      if k in existing && (k !in incoming || Beats(existing[k], incoming[k])) then existing[k] else incoming[k]
  }

  function MergedRaw(incoming: Raw, existing: Raw): Raw {
    if incoming.Encoded? && existing.Encoded? then
      Encoded(State(incoming.state.params, Merged(incoming.state.entries, existing.state.entries)))
    else incoming
  }

  method MergeLockStates(incoming: Raw, existing: Raw) returns (out: Raw)
    ensures out == MergedRaw(incoming, existing)
    ensures !incoming.Encoded? || !existing.Encoded? ==> out == incoming
    ensures incoming.Encoded? ==> out.Encoded? && out.state.params == incoming.state.params
  {
    if existing.Absent? || !incoming.Encoded? || !existing.Encoded? {
      return incoming;
    }
    var entries, ex := incoming.state.entries, existing.state.entries;
    var todo := ex.Keys;
    while todo != {}
      invariant todo <= ex.Keys
      invariant entries == Merged(incoming.state.entries, map k | k in ex && k !in todo :: ex[k])
      decreases todo
    {
      var k :| k in todo;
      todo := todo - {k};
      var e := ex[k];
      if k !in entries || e.lockedUntil > entries[k].lockedUntil
         || (e.lockedUntil == entries[k].lockedUntil && e.count > entries[k].count) {
        entries := entries[k := e];
      }
    }
    assert (map k | k in ex && k !in todo :: ex[k]) == ex;
    return Encoded(State(incoming.state.params, entries));
  }

  // ----- algebra of the join

  /** Two tables that agree on when every key is locked and on its count, not on where the window starts. */
  ghost predicate SameRanks(a: Entries, b: Entries) {
    && a.Keys == b.Keys
    && forall k :: k in a ==> a[k].lockedUntil == b[k].lockedUntil && a[k].count == b[k].count
  }

  lemma MergeAssociativeIdempotent(a: Entries, b: Entries, c: Entries)
    ensures Merged(Merged(a, b), c) == Merged(a, Merged(b, c))
    ensures Merged(a, a) == a
  {
    var l, r := Merged(Merged(a, b), c), Merged(a, Merged(b, c));
    assert l.Keys == r.Keys;
  }

  lemma MergeCommutes(a: Entries, b: Entries)
    ensures SameRanks(Merged(a, b), Merged(b, a))
    ensures Merged(a, b) == Merged(b, a)
            <==> forall k :: k in a && k in b && a[k].lockedUntil == b[k].lockedUntil && a[k].count == b[k].count
                             ==> a[k].first == b[k].first
  {
    var l, r := Merged(a, b), Merged(b, a);
    if l == r {
      forall k | k in a && k in b && a[k].lockedUntil == b[k].lockedUntil && a[k].count == b[k].count
        ensures a[k].first == b[k].first
      {
        assert l[k] == a[k] && r[k] == b[k];
      }
    }
  }

  /** A row after a run of pushes, in the order they commit. */
  function Pushed(row: Entries, pushes: seq<Entries>): Entries
    decreases |pushes|
  {
    if pushes == [] then row else Pushed(Merged(pushes[0], row), pushes[1..])
  }

  ghost predicate Offered(r: Record, k: string, row: Entries, pushes: seq<Entries>) {
    (k in row && row[k] == r) || exists push :: push in pushes && k in push && push[k] == r
  }

  /** The row holds an offer for `k`, and none was ever made that locks for longer, or as long with more
      failures. */
  lemma {:induction false} PushedMaximum(row: Entries, pushes: seq<Entries>, k: string)
    ensures k in Pushed(row, pushes) ==> Offered(Pushed(row, pushes)[k], k, row, pushes)
    ensures forall r :: Offered(r, k, row, pushes) ==> k in Pushed(row, pushes) && !Beats(r, Pushed(row, pushes)[k])
    ensures forall r :: Offered(r, k, row, pushes) ==>
      var most := Pushed(row, pushes)[k];
      r.lockedUntil < most.lockedUntil || (r.lockedUntil == most.lockedUntil && r.count <= most.count)
    decreases |pushes|
  {
    if pushes != [] {
      var next := Merged(pushes[0], row);
      PushedMaximum(next, pushes[1..], k);
      var end := Pushed(row, pushes);
      if k in end {
        var r := end[k];
        if k in next && next[k] == r {
          assert pushes[0] in pushes;
        } else {
          var push :| push in pushes[1..] && k in push && push[k] == r;
          assert push in pushes;
        }
      }
      forall r | Offered(r, k, row, pushes) ensures k in end && !Beats(r, end[k]) {
        if (k in row && row[k] == r) || (k in pushes[0] && pushes[0][k] == r) {
          assert k in next && Offered(next[k], k, next, pushes[1..]);
        } else {
          var push :| push in pushes && k in push && push[k] == r;
          assert push in pushes[1..];
          assert Offered(r, k, next, pushes[1..]);
        }
      }
    }
  }

  /** The order in which nodes push does not matter. */
  lemma PushOrderIrrelevant(row: Entries, pushes: seq<Entries>, others: seq<Entries>)
    requires multiset(pushes) == multiset(others)
    ensures SameRanks(Pushed(row, pushes), Pushed(row, others))
  {
    var a, b := Pushed(row, pushes), Pushed(row, others);
    assert forall push :: push in pushes <==> push in multiset(pushes);
    assert forall push :: push in others <==> push in multiset(others);
    forall k
      ensures k in a <==> k in b
      ensures k in a && k in b ==> a[k].lockedUntil == b[k].lockedUntil && a[k].count == b[k].count
    {
      PushedMaximum(row, pushes, k);
      PushedMaximum(row, others, k);
      assert forall r :: Offered(r, k, row, pushes) <==> Offered(r, k, row, others);
    }
  }

  // ----- the table itself

  function Row(rows: map<string, Raw>, n: string): Raw { if n in rows then rows[n] else Absent }

  /** Every row after one SaveLocks transaction. */
  function SavedRows(rows: map<string, Raw>, states: map<string, Raw>): map<string, Raw> {
    rows + map n | n in states :: MergedRaw(states[n], Row(rows, n))
  }

  class LockTable {
    var rows: map<string, Raw>

    constructor ()
      ensures rows == map[]
    {
      rows := map[];
    }

    /** One advisory-locked transaction; `commits` is whether the database accepts it. */
    method SaveLocks(states: map<string, Raw>, commits: bool)
      modifies this
      ensures rows == if commits then SavedRows(old(rows), states) else old(rows)
      ensures forall n :: n !in states ==> Row(rows, n) == Row(old(rows), n)
    {
      var next := rows;
      var todo := states.Keys;
      while todo != {}
        invariant todo <= states.Keys
        invariant rows == old(rows)
        invariant next.Keys == rows.Keys + (states.Keys - todo)
        invariant forall n :: n in next ==>
          next[n] == if n in states && n !in todo then MergedRaw(states[n], Row(rows, n)) else rows[n]
        decreases todo
      {
        var n :| n in todo;
        todo := todo - {n};
        var merged := MergeLockStates(states[n], Row(rows, n));
        next := next[n := merged];
      }
      assert next == SavedRows(rows, states);
      if commits {
        rows := next;
      }
    }
  }

  function EncodedAll(states: map<string, State>): map<string, Raw> { map n | n in states :: Encoded(states[n]) }

  function Decoded(rows: map<string, Raw>): map<string, State> {
    map n | n in rows && rows[n].Encoded? :: rows[n].state
  }

  method StatesFromLimiter(states: map<string, State>) returns (out: map<string, Raw>)
    ensures out == EncodedAll(states)
  {
    out := map[];
    var todo := states.Keys;
    while todo != {}
      invariant todo <= states.Keys
      invariant out == map n | n in states && n !in todo :: Encoded(states[n])
      decreases todo
    {
      var n :| n in todo;
      todo := todo - {n};
      out := out[n := Encoded(states[n])];
    }
  }

  method StatesToLimiter(raw: map<string, Raw>) returns (out: map<string, State>)
    ensures out == Decoded(raw)
  {
    out := map[];
    var todo := raw.Keys;
    while todo != {}
      invariant todo <= raw.Keys
      invariant out == map n | n in raw && n !in todo && raw[n].Encoded? :: raw[n].state
      decreases todo
    {
      var n :| n in todo;
      todo := todo - {n};
      if raw[n].Encoded? {
        out := out[n := raw[n].state];
      }
    }
  }
}
