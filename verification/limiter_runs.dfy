/** Whole runs of one limiter. A run is a list of timed operations, applied to the limiter's table. */
module LimiterRuns {
  import opened Prelude
  import opened Security

  datatype Op =
    | Ask(key: string)                 // Allowed
    | Fail(key: string)                // Fail, whatever Allowed would say
    | Attempt(key: string)             // a login with a wrong password: Allowed, then Fail if it said yes
    | Reset(key: string)
    | Sweep(keys: set<string>)         // a gc pass, or the part of one that has looked at `keys`

  datatype Timed = Timed(op: Op, now: int)

  datatype Outcome = Answered(ok: bool, until: int) | Failed(locked: bool) | Quiet

  function Effect(p: Params, e: Entries, t: Timed): Entries {
    match t.op
    case Ask(k) => AfterAllowed(p, e, k, t.now)
    case Fail(k) => AfterFail(p, e, k, t.now)
    case Attempt(k) =>
      var asked := AfterAllowed(p, e, k, t.now);
      if LockedAt(e, k, t.now) then asked else AfterFail(p, asked, k, t.now)
    case Reset(k) => AfterReset(e, k)
    case Sweep(keys) => AfterSweep(p, e, keys, t.now)
  }

  function Observed(p: Params, e: Entries, t: Timed): Outcome {
    match t.op
    case Ask(k) => var (ok, until) := AllowedAnswer(e, k, t.now); Answered(ok, until)
    case Attempt(k) =>
      if LockedAt(e, k, t.now) then Answered(false, e[k].lockedUntil)
      else Failed(FailedRecord(p, AfterAllowed(p, e, k, t.now), k, t.now).count >= p.max)
    case Fail(k) => Failed(FailedRecord(p, e, k, t.now).count >= p.max)
    case _ => Quiet
  }

  function Run(p: Params, e: Entries, ts: seq<Timed>): Entries
    decreases |ts|
  {
    if ts == [] then e else Run(p, Effect(p, e, ts[0]), ts[1..])
  }

  /** The clock never goes back, and reads `from` at the start. */
  predicate Timely(ts: seq<Timed>, from: int) {
    ts == [] || (from <= ts[0].now && Timely(ts[1..], ts[0].now))
  }

  function EndOf(ts: seq<Timed>, from: int): int {
    if ts == [] then from else ts[|ts| - 1].now
  }

  /** The handlers ask Allowed first. A failure recorded without that guard leaves a lock in place
      exactly when it still falls in the record's window (or when one failure is enough to lock). */
  lemma UnguardedFailKeepsLock(p: Params, e: Entries, key: string, now: int)
    requires p.Valid() && now >= ZERO_TIME
    requires LockedAt(e, key, now) && e[key].lockedUntil <= now + p.lockout
    ensures AfterFail(p, e, key, now)[key].lockedUntil >= e[key].lockedUntil
            <==> now - e[key].first <= p.window || p.max == 1
  {
  }

  // ----- runs of the limiter itself

  /** One operation on a limiter: its methods do what Effect says and return what Observed says. */
  method Perform(l: Limiter, t: Timed) returns (out: Outcome)
    requires l.Valid() && (t.op.Sweep? ==> l.table.Keys <= t.op.keys)
    modifies l, l.cells
    ensures l.Valid() && fresh(l.cells - old(l.cells))
    ensures l.table == Effect(l.params, old(l.table), t) && out == Observed(l.params, old(l.table), t)
  {
    match t.op
    case Ask(k) =>
      var ok, until := l.Allowed(k, t.now);
      return Answered(ok, until);
    case Fail(k) =>
      var locked := l.Fail(k, t.now);
      return Failed(locked);
    case Attempt(k) =>
      var ok, until := l.Allowed(k, t.now);
      if !ok {
        return Answered(false, until);
      }
      var locked := l.Fail(k, t.now);
      return Failed(locked);
    case Reset(k) =>
      l.Reset(k);
      return Quiet;
    case Sweep(_) =>
      l.Gc(t.now);
      return Quiet;
  }

  /** Every gc pass in the run is a complete one. */
  predicate FullSweeps(p: Params, e: Entries, ts: seq<Timed>)
    decreases |ts|
  {
    ts == [] || ((ts[0].op.Sweep? ==> e.Keys <= ts[0].op.keys) && FullSweeps(p, Effect(p, e, ts[0]), ts[1..]))
  }

  /** A whole run on a limiter. */
  method PerformAll(l: Limiter, ts: seq<Timed>) returns (outs: seq<Outcome>)
    requires l.Valid() && FullSweeps(l.params, l.table, ts)
    modifies l, l.cells
    ensures l.Valid() && fresh(l.cells - old(l.cells))
    ensures l.table == Run(l.params, old(l.table), ts) && outs == Answers(l.params, old(l.table), ts)
    decreases |ts|
  {
    if ts == [] {
      return [];
    }
    var out := Perform(l, ts[0]);
    var rest := PerformAll(l, ts[1..]);
    outs := (if ts[0].op.Sweep? then [] else [out]) + rest;
  }

  // ----- snapshots and gc

  /** The record of `k` as far as any call can tell it at time `now`. */
  function Live(p: Params, e: Entries, k: string, now: int): Option<Record> {
    if k in e && !Expired(p, e[k], now) then Some(e[k]) else None
  }

  ghost predicate Similar(p: Params, e1: Entries, e2: Entries, now: int) {
    forall k :: k != "" ==> Live(p, e1, k, now) == Live(p, e2, k, now)
  }

  /** Every record counts at least one failure. */
  predicate Counted(e: Entries) { forall k :: k in e ==> e[k].count > 0 }

  /** The calls in a run, without the sweeps. */
  function Calls(ts: seq<Timed>): seq<Timed> {
    if ts == [] then [] else (if ts[0].op.Sweep? then [] else [ts[0]]) + Calls(ts[1..])
  }

  /** What the calls in a run return. */
  function Answers(p: Params, e: Entries, ts: seq<Timed>): seq<Outcome>
    decreases |ts|
  {
    if ts == [] then []
    else (if ts[0].op.Sweep? then [] else [Observed(p, e, ts[0])]) + Answers(p, Effect(p, e, ts[0]), ts[1..])
  }

  predicate NamedKey(t: Timed) { t.op.Sweep? || t.op.key != "" }

  predicate NamedKeys(ts: seq<Timed>) { forall i :: 0 <= i < |ts| ==> NamedKey(ts[i]) }

  lemma CallKeepsSimilar(p: Params, e1: Entries, e2: Entries, t: Timed)
    requires p.Valid() && Similar(p, e1, e2, t.now) && !t.op.Sweep? && NamedKey(t)
    ensures Observed(p, e1, t) == Observed(p, e2, t)
    ensures Similar(p, Effect(p, e1, t), Effect(p, e2, t), t.now)
  {
    assert Live(p, e1, t.op.key, t.now) == Live(p, e2, t.op.key, t.now);
    forall k | k != "" ensures Live(p, Effect(p, e1, t), k, t.now) == Live(p, Effect(p, e2, t), k, t.now) {
      assert Live(p, e1, k, t.now) == Live(p, e2, k, t.now);
    }
  }

  lemma LaterSimilar(p: Params, e1: Entries, e2: Entries, now: int, later: int)
    requires p.Valid() && Similar(p, e1, e2, now) && now <= later
    ensures Similar(p, e1, e2, later)
  {
    forall k | k != "" ensures Live(p, e1, k, later) == Live(p, e2, k, later) {
      assert Live(p, e1, k, now) == Live(p, e2, k, now);
    }
  }

  lemma SweepKeepsSimilar(p: Params, e1: Entries, e2: Entries, t: Timed, now: int)
    requires p.Valid() && Similar(p, e1, e2, now) && t.op.Sweep? && t.now <= now
    ensures Similar(p, Effect(p, e1, t), e2, now) && Similar(p, e2, Effect(p, e1, t), now)
  {
    forall k | k != "" ensures Live(p, Effect(p, e1, t), k, now) == Live(p, e2, k, now) {
      assert Live(p, e1, k, now) == Live(p, e2, k, now);
    }
  }

  function Later(a: int, b: int): int { if a < b then b else a }

  lemma {:induction false} SimilarAnswers(p: Params, e1: Entries, e2: Entries, ts1: seq<Timed>, ts2: seq<Timed>,
                                          now1: int, now2: int)
    requires p.Valid() && Similar(p, e1, e2, Later(now1, now2))
    requires Timely(ts1, now1) && Timely(ts2, now2) && Calls(ts1) == Calls(ts2)
    requires NamedKeys(ts1) && NamedKeys(ts2)
    ensures Answers(p, e1, ts1) == Answers(p, e2, ts2)
    decreases |ts1| + |ts2|
  {
    if ts1 != [] && ts1[0].op.Sweep? {
      var now := Later(ts1[0].now, now2);
      LaterSimilar(p, e1, e2, Later(now1, now2), now);
      SweepKeepsSimilar(p, e1, e2, ts1[0], now);
      SimilarAnswers(p, Effect(p, e1, ts1[0]), e2, ts1[1..], ts2, ts1[0].now, now2);
    } else if ts2 != [] && ts2[0].op.Sweep? {
      var now := Later(now1, ts2[0].now);
      LaterSimilar(p, e1, e2, Later(now1, now2), now);
      assert Similar(p, e2, e1, now);
      SweepKeepsSimilar(p, e2, e1, ts2[0], now);
      SimilarAnswers(p, e1, Effect(p, e2, ts2[0]), ts1, ts2[1..], now1, ts2[0].now);
    } else if ts1 != [] && ts2 != [] {
      var t := ts1[0];
      assert t == Calls(ts1)[0] == Calls(ts2)[0] == ts2[0];
      assert Calls(ts1[1..]) == Calls(ts1)[1..] == Calls(ts2)[1..] == Calls(ts2[1..]);
      LaterSimilar(p, e1, e2, Later(now1, now2), t.now);
      CallKeepsSimilar(p, e1, e2, t);
      SimilarAnswers(p, Effect(p, e1, t), Effect(p, e2, t), ts1[1..], ts2[1..], t.now, t.now);
    } else {
      assert ts1 == [] ==> Calls(ts1) == [];
      assert ts2 == [] ==> Calls(ts2) == [];
    }
  }

  /** A limiter that takes over from a snapshot answers every later call as the one it was taken
      from would have answered, whenever either of them sweeps. */
  lemma SnapshotTakesOver(p: Params, e: Entries, taken: int, restored: int, ts1: seq<Timed>, ts2: seq<Timed>)
    requires p.Valid() && Counted(e) && taken <= restored
    requires Timely(ts1, taken) && Timely(ts2, restored) && Calls(ts1) == Calls(ts2)
    requires NamedKeys(ts1) && NamedKeys(ts2)
    ensures Answers(p, e, ts1) == Answers(p, Restored(p, map[], SnapshotOf(p, e, taken), restored), ts2)
  {
    var fresh' := Restored(p, map[], SnapshotOf(p, e, taken), restored);
    assert Similar(p, e, fresh', restored);
    SimilarAnswers(p, e, fresh', ts1, ts2, taken, restored);
  }

  /** When gc runs, and how far it gets, cannot be told from any answer. */
  lemma SweepsInvisible(p: Params, e: Entries, ts1: seq<Timed>, ts2: seq<Timed>, now: int)
    requires p.Valid() && Timely(ts1, now) && Timely(ts2, now) && Calls(ts1) == Calls(ts2)
    requires NamedKeys(ts1) && NamedKeys(ts2)
    ensures Answers(p, e, ts1) == Answers(p, e, ts2)
  {
    SimilarAnswers(p, e, e, ts1, ts2, now, now);
  }

  /** Every table that runs and restores can produce counts at least one failure per record. */
  lemma {:induction false} RunCounted(p: Params, e: Entries, ts: seq<Timed>, st: Entries, now: int)
    requires Counted(e)
    ensures Counted(Run(p, e, ts)) && Counted(Restored(p, Run(p, e, ts), st, now))
    decreases |ts|
  {
    if ts != [] {
      assert Counted(Effect(p, e, ts[0]));
      RunCounted(p, Effect(p, e, ts[0]), ts[1..], st, now);
    }
  }
}
