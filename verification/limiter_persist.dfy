/** One node's exchange of its limiters with the shared lock table, or with its limiters.json. */
module LimiterPersistence {
  import opened Prelude
  import opened Security
  import opened LockStore
  import opened LimiterRuns
  import Cluster

  /** What one limiter holds after the states under its name, if any, were restored into it. */
  function AfterLoad(p: Params, held: Entries, states: map<string, State>, name: string, now: int): Entries {
    if name in states then Restored(p, held, states[name].entries, now) else held
  }

  predicate AllEmpty(states: map<string, State>) { forall n :: n in states ==> states[n].entries == map[] }

  lemma AllEmptyExtends(states: map<string, State>, n: string, st: State)
    requires n !in states
    ensures AllEmpty(states[n := st]) <==> AllEmpty(states) && |st.entries| == 0
  {
    var more := states[n := st];
    assert |st.entries| == 0 <==> st.entries == map[];
    assert more[n] == st && forall m :: m in states ==> more[m] == states[m];
  }

  function FileStates(file: Option<map<string, State>>): map<string, State> {
    if file.Some? then file.value else map[]
  }

  /** How a write, a removal or a transaction ends. os.WriteFile empties the file before it writes, so a
      failure either leaves the file alone or leaves a part of the text, which does not decode. */
  datatype Outcome = Done | Refused | CutShort

  /** limiters.json after a save. */
  function SavedFile(file: Option<map<string, State>>, states: map<string, State>, outcome: Outcome):
    Option<map<string, State>>
  {
    if AllEmpty(states) then (if outcome.Done? then None else file)
    else match outcome
         case Done => Some(states)
         case Refused => file
         case CutShort => None
  }

  /** The records that a row stands for. */
  function RowEntries(raw: Raw): Entries { if raw.Encoded? then raw.state.entries else map[] }

  class LimiterPersist {
    const limiters: map<string, Limiter>
    const pg: LockTable?
    var file: Option<map<string, State>>   // limiters.json; None when it is missing or unreadable

    ghost predicate Valid()
      reads *
    {
      && (forall n :: n in limiters ==> limiters[n].Valid())
      && forall m, n :: m in limiters && n in limiters && m != n ==> limiters[m] != limiters[n]
    }

    /** The row of every limiter is now the join of what it was and what the limiter held. */
    twostate predicate Joined(now: int)
      requires pg != null
      reads pg
    {
      forall n :: n in limiters ==>
        Row(pg.rows, n)
        == Encoded(State(limiters[n].params, Merged(SnapshotOf(limiters[n].params, old(limiters[n].table), now),
                                                    RowEntries(Row(old(pg.rows), n)))))
    }

    /** A new process that reads the file gets exactly the live records of every limiter, and there is a
        file only if there are any. */
    ghost predicate Recoverable(now: int)
      reads this, limiters.Values
    {
      && (forall n, t :: n in limiters ==>
            AfterLoad(limiters[n].params, map[], FileStates(file), n, t)
            == Restored(limiters[n].params, map[], SnapshotOf(limiters[n].params, limiters[n].table, now), t))
      && (file.Some? ==> forall n :: n in limiters ==>
            n in file.value && file.value[n].params == limiters[n].params)
      && (file == None <==>
          forall n :: n in limiters ==> SnapshotOf(limiters[n].params, limiters[n].table, now) == map[])
    }

    ghost predicate AreSnapshots(states: map<string, State>, now: int)
      reads limiters.Values
    {
      && states.Keys == limiters.Keys
      && forall n :: n in limiters ==>
           states[n] == State(limiters[n].params, SnapshotOf(limiters[n].params, limiters[n].table, now))
    }

    constructor (limiters: map<string, Limiter>, pg: LockTable?)
      requires forall n :: n in limiters ==> limiters[n].Valid()
      requires forall m, n :: m in limiters && n in limiters && m != n ==> limiters[m] != limiters[n]
      ensures Valid() && this.limiters == limiters && this.pg == pg && file == None
    {
      this.limiters, this.pg, this.file := limiters, pg, None;
    }

    method Snapshots(now: int) returns (out: map<string, State>, total: nat)
      requires Valid()
      ensures AreSnapshots(out, now)
      ensures total == 0 <==> forall n :: n in out ==> out[n].entries == map[]
    {
      out, total := map[], 0;
      var todo := limiters.Keys;
      while todo != {}
        invariant todo <= limiters.Keys
        invariant out.Keys == limiters.Keys - todo
        invariant forall n :: n in out ==>
          out[n] == State(limiters[n].params, SnapshotOf(limiters[n].params, limiters[n].table, now))
        invariant total == 0 <==> AllEmpty(out)
        decreases todo
      {
        var n :| n in todo;
        todo := todo - {n};
        var st := limiters[n].Snapshot(now);
        AllEmptyExtends(out, n, State(limiters[n].params, st));
        out, total := out[n := State(limiters[n].params, st)], total + |st|;
      }
    }

    method RestoreAll(states: map<string, State>, now: int)
      requires Valid()
      modifies limiters.Values
      ensures Valid()
      ensures forall n :: n in limiters ==>
        limiters[n].table == AfterLoad(limiters[n].params, old(limiters[n].table), states, n, now)
    {
      var todo := states.Keys;
      while todo != {}
        invariant todo <= states.Keys
        invariant Valid()
        invariant forall n :: n in limiters ==>
          limiters[n].table == if n in todo then old(limiters[n].table)
                               else AfterLoad(limiters[n].params, old(limiters[n].table), states, n, now)
        decreases todo
      {
        var n :| n in todo;
        todo := todo - {n};
        if n in limiters {
          limiters[n].Restore(states[n].entries, now);
        }
      }
    }

    method SaveRows(states: map<string, State>, commits: bool, ghost now: int)
      requires Valid() && pg != null && AreSnapshots(states, now)
      modifies pg
      ensures Valid()
      ensures pg.rows == if commits then SavedRows(old(pg.rows), EncodedAll(states)) else old(pg.rows)
      ensures commits ==> Joined(now)
      ensures forall n :: n in limiters ==> limiters[n].table == old(limiters[n].table)
    {
      AllSavedRowsHold(pg.rows, states);
      var raw := StatesFromLimiter(states);
      pg.SaveLocks(raw, commits);
      forall n | n in limiters ensures limiters[n].Valid() && limiters[n].table == old(limiters[n].table) {
        var l := limiters[n];
        assert old(l.Valid());
      }
    }

    /** Writes the file, or removes it if there is nothing to write. */
    method WriteFile(states: map<string, State>, nothing: bool, outcome: Outcome)
      requires nothing <==> AllEmpty(states)
      modifies this`file
      ensures file == SavedFile(old(file), states, outcome)
      ensures outcome.Done? ==> if nothing then file == None else file == Some(states)
      ensures outcome.Refused? ==> file == old(file)
      ensures outcome.CutShort? ==> file == None || file == old(file)
    {
      if nothing {
        if outcome.Done? {
          file := None;
        }
        return;
      }
      match outcome {
        case Done => file := Some(states);
        case Refused =>
        case CutShort => file := None;
      }
    }

    method SaveFile(states: map<string, State>, nothing: bool, outcome: Outcome, ghost now: int)
      requires Valid() && AreSnapshots(states, now) && (nothing <==> AllEmpty(states))
      modifies this`file
      ensures Valid()
      ensures file == SavedFile(old(file), states, outcome)
      ensures outcome.Done? ==> Recoverable(now)
      ensures forall n :: n in limiters ==> limiters[n].table == old(limiters[n].table)
    {
      forall n, t | n in states
        ensures AfterLoad(states[n].params, map[], FileStates(SavedFile(file, states, Done)), n, t)
             == Restored(states[n].params, map[], states[n].entries, t)
      {
        FileRoundTrip(file, states, n, states[n].params, t);
      }
      WriteFile(states, nothing, outcome);
      assert forall n :: n in limiters ==> limiters[n].Valid();
      assert AreSnapshots(states, now);
    }

    method Save(now: int, outcome: Outcome) returns (ghost states: map<string, State>)
      requires Valid()
      modifies this, pg
      ensures Valid()
      ensures pg != null ==> file == old(file)
      ensures old(AreSnapshots(states, now))
      ensures pg != null ==>
        pg.rows == if outcome.Done? then SavedRows(old(pg.rows), EncodedAll(states)) else old(pg.rows)
      ensures pg == null ==> file == SavedFile(old(file), states, outcome)
      ensures forall n :: n in limiters ==> limiters[n].table == old(limiters[n].table)
      // what that means for each limiter
      ensures outcome.Done? ==> if pg == null then Recoverable(now) else Joined(now)
    {
      var out, total := Snapshots(now);
      states := out;
      if pg != null {
        SaveRows(out, outcome.Done?, now);
        return;
      }
      SaveFile(out, total == 0, outcome, now);
    }

    /** Restores every limiter from its row. */
    method LoadRows(now: int)
      requires Valid() && pg != null
      modifies limiters.Values
      ensures Valid()
      ensures forall n :: n in limiters ==>
        limiters[n].table == AfterLoad(limiters[n].params, old(limiters[n].table), Decoded(pg.rows), n, now)
      ensures forall n :: n in limiters ==>
        limiters[n].table == Restored(limiters[n].params, old(limiters[n].table), RowEntries(Row(pg.rows, n)), now)
    {
      forall n | n in limiters
        ensures AfterLoad(limiters[n].params, limiters[n].table, Decoded(pg.rows), n, now)
             == Restored(limiters[n].params, limiters[n].table, RowEntries(Row(pg.rows, n)), now)
      {
        LoadedIsRestored(limiters[n].params, limiters[n].table, pg.rows, n, RowEntries(Row(pg.rows, n)), now);
      }
      var states := StatesToLimiter(pg.rows);
      RestoreAll(states, now);
    }

    /** `answers` is whether the database answers. */
    method Load(now: int, answers: bool)
      requires Valid()
      modifies limiters.Values
      ensures Valid()
      ensures forall n :: n in limiters ==>
        limiters[n].table ==
          AfterLoad(limiters[n].params, old(limiters[n].table),
                    if pg == null then FileStates(file) else if answers then Decoded(pg.rows) else map[], n, now)
      // the same for each limiter, its row and its entry in the file
      ensures pg != null && answers ==> forall n :: n in limiters ==>
        limiters[n].table == Restored(limiters[n].params, old(limiters[n].table), RowEntries(Row(pg.rows, n)), now)
      ensures pg == null && file.Some? ==> forall n :: n in limiters && n in file.value ==>
        limiters[n].table == Restored(limiters[n].params, old(limiters[n].table), file.value[n].entries, now)
    {
      if pg != null {
        if answers {
          LoadRows(now);
        }
        return;
      }
      if file.Some? {
        RestoreAll(file.value, now);
      }
    }

    /** The load of a new process without a database, which finds this file. */
    method Resume(found: Option<map<string, State>>, now: int)
      requires Valid() && pg == null
      modifies this`file, limiters.Values
      ensures Valid() && file == found
      ensures forall n :: n in limiters ==>
        limiters[n].table == AfterLoad(limiters[n].params, old(limiters[n].table), FileStates(found), n, now)
    {
      file := found;
      assert forall n :: n in limiters ==> limiters[n].Valid() && limiters[n].table == old(limiters[n].table);
      Load(now, true);
    }

    /** The 30-second tick: push, then pull; the pull reads the clock again. */
    method Sync(now: int, later: int, outcome: Outcome, answers: bool) returns (ghost states: map<string, State>)
      requires Valid()
      modifies this, pg, limiters.Values
      ensures Valid()
      ensures old(AreSnapshots(states, now))
      ensures pg != null ==>
        pg.rows == if outcome.Done? then SavedRows(old(pg.rows), EncodedAll(states)) else old(pg.rows)
      // for each limiter and its row
      ensures pg != null && outcome.Done? ==> Joined(now)
      ensures forall n :: n in limiters ==>
        limiters[n].table == if pg == null || !answers then old(limiters[n].table)
                             else Restored(limiters[n].params, old(limiters[n].table),
                                           RowEntries(Row(pg.rows, n)), later)
    {
      states := Save(now, outcome);
      if pg == null || !answers {
        return;
      }
      LoadRows(later);
    }
  }

  /** A new process that reads the file its predecessor saved holds exactly its own snapshot for every
      limiter, also when there was nothing to write and the file was removed. */
  lemma FileRoundTrip(file: Option<map<string, State>>, snaps: map<string, State>, name: string, p: Params, now: int)
    requires name in snaps
    ensures AfterLoad(p, map[], FileStates(SavedFile(file, snaps, Done)), name, now)
         == Restored(p, map[], snaps[name].entries, now)
  {
    if AllEmpty(snaps) {
      assert Restored(p, map[], snaps[name].entries, now) == map[];
    }
  }

  /** A restart through limiters.json cannot be observed: the new process answers every later call on
      every limiter as the old one would have. */
  lemma RestartUnobservable(p: Params, e: Entries, file: Option<map<string, State>>, snaps: map<string, State>,
                            name: string, saved: int, loaded: int, ts1: seq<Timed>, ts2: seq<Timed>)
    requires p.Valid() && Counted(e) && name in snaps && snaps[name].entries == SnapshotOf(p, e, saved)
    requires saved <= loaded && Timely(ts1, saved) && Timely(ts2, loaded) && Calls(ts1) == Calls(ts2)
    requires NamedKeys(ts1) && NamedKeys(ts2)
    ensures Answers(p, e, ts1)
         == Answers(p, AfterLoad(p, map[], FileStates(SavedFile(file, snaps, Done)), name, loaded), ts2)
  {
    FileRoundTrip(file, snaps, name, p, loaded);
    SnapshotTakesOver(p, e, saved, loaded, ts1, ts2);
  }

  /** The row that a table keeps under a name holds these records. */
  predicate RowHolds(raw: Raw, e: Entries) { e == RowEntries(raw) }

  /** The steps of node `n` that one Sync is made of. */
  function Synced(p: Params, s: Cluster.State, n: nat, elapsed: nat, writes: bool, answers: bool): Cluster.State {
    var s1 := Cluster.Next(p, s, Cluster.Take(n));
    var s2 := if writes then Cluster.Next(p, s1, Cluster.Push(n)) else s1;
    var s3 := Cluster.Next(p, s2, Cluster.Tick(elapsed));
    if answers then Cluster.Next(p, Cluster.Next(p, s3, Cluster.Pull(n)), Cluster.Adopt(n)) else s3
  }

  lemma SyncedEffect(p: Params, s: Cluster.State, n: nat, elapsed: nat, writes: bool, answers: bool)
    requires n < |s.nodes|
    ensures var s' := Synced(p, s, n, elapsed, writes, answers);
            var held := s.nodes[n].held;
            && n < |s'.nodes| && s'.now == s.now + elapsed
            && s'.row == (if writes then Merged(SnapshotOf(p, held, s.now), s.row) else s.row)
            && s'.nodes[n].held == if answers then Restored(p, held, s'.row, s'.now) else held
  {
  }

  lemma SavedRowHolds(rows: map<string, Raw>, snaps: map<string, State>, name: string, e: Entries)
    requires RowHolds(Row(rows, name), e) && name in snaps
    ensures Row(SavedRows(rows, EncodedAll(snaps)), name)
         == Encoded(State(snaps[name].params, Merged(snaps[name].entries, e)))
  {
    assert Merged(snaps[name].entries, map[]) == snaps[name].entries;
  }

  lemma AllSavedRowsHold(rows: map<string, Raw>, snaps: map<string, State>)
    ensures forall n :: n in snaps ==>
      Row(SavedRows(rows, EncodedAll(snaps)), n)
      == Encoded(State(snaps[n].params, Merged(snaps[n].entries, RowEntries(Row(rows, n)))))
  {
    forall n | n in snaps
      ensures Row(SavedRows(rows, EncodedAll(snaps)), n)
           == Encoded(State(snaps[n].params, Merged(snaps[n].entries, RowEntries(Row(rows, n)))))
    {
      SavedRowHolds(rows, snaps, n, RowEntries(Row(rows, n)));
    }
  }

  lemma LoadedIsRestored(p: Params, held: Entries, rows: map<string, Raw>, name: string, e: Entries, now: int)
    requires RowHolds(Row(rows, name), e)
    ensures AfterLoad(p, held, Decoded(rows), name, now) == Restored(p, held, e, now)
  {
    assert Restored(p, held, map[], now) == held;
  }

  /** What Sync does to the table and to one limiter is what those steps do in the cluster, so the
      cluster's theorems are about these methods. */
  lemma SyncIsClusterSteps(p: Params, s: Cluster.State, n: nat, elapsed: nat, writes: bool, answers: bool,
                           name: string, rows: map<string, Raw>, snaps: map<string, State>)
    requires n < |s.nodes| && RowHolds(Row(rows, name), s.row)
    requires name in snaps && snaps[name].entries == SnapshotOf(p, s.nodes[n].held, s.now)
    ensures var s' := Synced(p, s, n, elapsed, writes, answers);
            var rows' := if writes then SavedRows(rows, EncodedAll(snaps)) else rows;
            && n < |s'.nodes| && s'.now == s.now + elapsed && RowHolds(Row(rows', name), s'.row)
            && s'.row == RowEntries(Row(rows', name))
            && s'.nodes[n].held == (if answers then AfterLoad(p, s.nodes[n].held, Decoded(rows'), name, s'.now)
                                    else s.nodes[n].held)
            && s'.nodes[n].held == if answers then Restored(p, s.nodes[n].held, RowEntries(Row(rows', name)), s'.now)
                                   else s.nodes[n].held
  {
    var s' := Synced(p, s, n, elapsed, writes, answers);
    var rows' := if writes then SavedRows(rows, EncodedAll(snaps)) else rows;
    SyncedEffect(p, s, n, elapsed, writes, answers);
    SavedRowHolds(rows, snaps, name, s.row);
    LoadedIsRestored(p, s.nodes[n].held, rows', name, s'.row, s'.now);
  }

  /** The load at the start of a process is a pull by a fresh node. */
  lemma LoadIsClusterSteps(p: Params, s: Cluster.State, n: nat, name: string, rows: map<string, Raw>)
    requires n < |s.nodes| && RowHolds(Row(rows, name), s.row)
    ensures var s1 := Cluster.Next(p, s, Cluster.Restart(n));
            var s' := Cluster.Next(p, Cluster.Next(p, s1, Cluster.Pull(n)), Cluster.Adopt(n));
            n < |s'.nodes| && s'.row == s.row && s'.nodes[n].held == AfterLoad(p, map[], Decoded(rows), name, s.now)
  {
    LoadedIsRestored(p, map[], rows, name, s.row, s.now);
  }

  /** A save, a restart and a load: whatever is asked of a limiter afterwards, the new process answers as
      the old one would have. */
  method Restart(before: LimiterPersist, after: LimiterPersist, saved: int, loaded: int, ghost name: string,
                 ghost ts1: seq<Timed>, ghost ts2: seq<Timed>)
    requires before != after && before.pg == null && after.pg == null && before.Valid() && after.Valid()
    requires name in before.limiters && name in after.limiters
    requires before.limiters[name].params == after.limiters[name].params
    requires Counted(before.limiters[name].table) && after.limiters[name].table == map[]
    requires before.limiters[name] !in after.limiters.Values
    requires saved <= loaded && Timely(ts1, saved) && Timely(ts2, loaded) && Calls(ts1) == Calls(ts2)
    requires NamedKeys(ts1) && NamedKeys(ts2)
    modifies before, after, after.limiters.Values
    ensures var p := before.limiters[name].params;
            Answers(p, old(before.limiters[name].table), ts1) == Answers(p, after.limiters[name].table, ts2)
  {
    ghost var p, e := before.limiters[name].params, before.limiters[name].table;
    ghost var restored := Restored(p, map[], SnapshotOf(p, e, saved), loaded);
    ghost var snaps := before.Save(saved, Done);
    assert AfterLoad(p, map[], FileStates(before.file), name, loaded) == restored;
    after.Resume(before.file, loaded);
    assert after.limiters[name].table == restored;
    SnapshotTakesOver(p, e, saved, loaded, ts1, ts2);
  }

  /** The steps of one Sync leave this row and these records at the node. */
  predicate EndsWith(p: Params, s: Cluster.State, n: nat, elapsed: nat, writes: bool, answers: bool,
                     row: Entries, held: Entries)
  {
    var s' := Synced(p, s, n, elapsed, writes, answers);
    n < |s'.nodes| && s'.row == row && s'.nodes[n].held == held
  }

  lemma SyncedEnds(p: Params, s: Cluster.State, n: nat, elapsed: nat, writes: bool, answers: bool,
                   later: int, row: Entries, held: Entries)
    requires n < |s.nodes| && later == s.now + elapsed
    requires row == if writes then Merged(SnapshotOf(p, s.nodes[n].held, s.now), s.row) else s.row
    requires held == if answers then Restored(p, s.nodes[n].held, row, later) else s.nodes[n].held
    ensures EndsWith(p, s, n, elapsed, writes, answers, row, held)
  {
    SyncedEffect(p, s, n, elapsed, writes, answers);
  }

  /** A Sync of a node's limiters is a run of that node's steps in the cluster model of each of them. */
  method SyncAsNode(lp: LimiterPersist, now: int, elapsed: nat, outcome: Outcome, answers: bool,
                    ghost name: string, ghost s: Cluster.State, ghost n: nat)
    requires lp.Valid() && lp.pg != null && name in lp.limiters && n < |s.nodes| && s.now == now
    requires s.nodes[n].held == lp.limiters[name].table && s.row == RowEntries(Row(lp.pg.rows, name))
    modifies lp, lp.pg, lp.limiters.Values
    ensures EndsWith(lp.limiters[name].params, s, n, elapsed, outcome.Done?, answers,
                     RowEntries(Row(lp.pg.rows, name)), lp.limiters[name].table)
  {
    var later := now + elapsed;
    ghost var p, held := lp.limiters[name].params, s.nodes[n].held;
    ghost var snaps := lp.Sync(now, later, outcome, answers);
    ghost var row, after := RowEntries(Row(lp.pg.rows, name)), lp.limiters[name].table;
    assert after == if answers then Restored(p, held, row, later) else held;
    assert row == if outcome.Done? then Merged(SnapshotOf(p, held, s.now), s.row) else s.row;
    SyncedEnds(p, s, n, elapsed, outcome.Done?, answers, later, row, after);
  }
}
