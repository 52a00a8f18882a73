/** N nodes and the shared row of one limiter, as a state machine whose steps interleave freely.
    A node's exchange is four steps (take a snapshot, push it, pull the row, adopt what was pulled),
    so anything may happen between any two of them. All nodes share the parameters and one clock. */
module Cluster {
  import opened Prelude
  import opened Security
  import opened LockStore
  import opened LimiterRuns

  datatype Node = Node(held: Entries, taken: Option<Entries>, pulled: Option<Entries>)

  /** A wrong password that some node recorded; the log is history, no node reads it. */
  datatype Failure = Failure(key: string, at: int)

  datatype State = State(nodes: seq<Node>, row: Entries, now: int, log: seq<Failure>)

  datatype Step =
    | Tick(elapsed: nat)
    | Local(n: nat, op: Op)
    | Take(n: nat)
    | Push(n: nat)
    | Pull(n: nat)
    | Adopt(n: nat)
    | Restart(n: nat)

  const FRESH := Node(map[], None, None)

  predicate Initial(s: State) {
    s.row == map[] && s.log == [] && forall n :: 0 <= n < |s.nodes| ==> s.nodes[n] == FRESH
  }

  /** Whether a local operation records a failure, and on which key. */
  predicate Records(e: Entries, op: Op, now: int) {
    op.Fail? || (op.Attempt? && !LockedAt(e, op.key, now))
  }

  function Next(p: Params, s: State, step: Step): State {
    if step.Tick? then s.(now := s.now + step.elapsed)
    else if step.n >= |s.nodes| then s
    else
      var node := s.nodes[step.n];
      match step
      case Local(n, op) =>
        s.(nodes := s.nodes[n := node.(held := Effect(p, node.held, Timed(op, s.now)))],
           log := if Records(node.held, op, s.now) then s.log + [Failure(op.key, s.now)] else s.log)
      case Take(n) => s.(nodes := s.nodes[n := node.(taken := Some(SnapshotOf(p, node.held, s.now)))])
      case Push(n) =>
        if node.taken.None? then s
        else s.(nodes := s.nodes[n := node.(taken := None)], row := Merged(node.taken.value, s.row))
      case Pull(n) => s.(nodes := s.nodes[n := node.(pulled := Some(s.row))])
      case Adopt(n) =>
        if node.pulled.None? then s
        else s.(nodes := s.nodes[n := node.(held := Restored(p, node.held, node.pulled.value, s.now), pulled := None)])
      case Restart(n) => s.(nodes := s.nodes[n := FRESH])
  }

  function Exec(p: Params, s: State, steps: seq<Step>): State
    decreases |steps|
  {
    if steps == [] then s else Exec(p, Next(p, s, steps[0]), steps[1..])
  }

  // ----- no lock is invented

  /** `ids` are failures that `r` stands for: as many as it counts, all on `key`, all in its window. */
  ghost predicate StandsFor(p: Params, log: seq<Failure>, key: string, r: Record, ids: set<nat>) {
    && |ids| == r.count
    && (forall i :: i in ids ==> i < |log| && log[i].key == key && r.first <= log[i].at <= r.first + p.window)
    && r.count >= 1
    && (if r.count >= p.max then exists i :: i in ids && r.lockedUntil == log[i].at + p.lockout
        else r.lockedUntil == ZERO_TIME)
  }

  ghost predicate Backed(p: Params, log: seq<Failure>, e: Entries) {
    forall k :: k in e ==> exists ids :: StandsFor(p, log, k, e[k], ids)
  }

  ghost predicate NodeBacked(p: Params, log: seq<Failure>, node: Node) {
    && Backed(p, log, node.held)
    && (node.taken.Some? ==> Backed(p, log, node.taken.value))
    && (node.pulled.Some? ==> Backed(p, log, node.pulled.value))
  }

  ghost predicate Inv(p: Params, s: State) {
    && (forall i :: 0 <= i < |s.log| ==> s.log[i].at <= s.now)
    && Backed(p, s.log, s.row)
    && forall n :: 0 <= n < |s.nodes| ==> NodeBacked(p, s.log, s.nodes[n])
  }

  lemma BackedCounted(p: Params, log: seq<Failure>, e: Entries)
    requires Backed(p, log, e)
    ensures Counted(e)
  {
    forall k | k in e ensures e[k].count > 0 {
      var ids :| StandsFor(p, log, k, e[k], ids);
    }
  }

  lemma BackedGrows(p: Params, log: seq<Failure>, f: Failure, e: Entries)
    requires Backed(p, log, e)
    ensures Backed(p, log + [f], e)
  {
    forall k | k in e ensures exists ids :: StandsFor(p, log + [f], k, e[k], ids) {
      var ids :| StandsFor(p, log, k, e[k], ids);
      assert StandsFor(p, log + [f], k, e[k], ids);
    }
  }

  lemma NodeGrows(p: Params, log: seq<Failure>, f: Failure, node: Node)
    requires NodeBacked(p, log, node)
    ensures NodeBacked(p, log + [f], node)
  {
    BackedGrows(p, log, f, node.held);
    if node.taken.Some? { BackedGrows(p, log, f, node.taken.value); }
    if node.pulled.Some? { BackedGrows(p, log, f, node.pulled.value); }
  }

  /** Every record of `e` comes, unchanged, from `a` or from `b`. */
  lemma BackedMix(p: Params, log: seq<Failure>, e: Entries, a: Entries, b: Entries)
    requires Backed(p, log, a) && Backed(p, log, b)
    requires forall k :: k in e ==> (k in a && e[k] == a[k]) || (k in b && e[k] == b[k])
    ensures Backed(p, log, e)
  {
  }

  lemma FailBacked(p: Params, log: seq<Failure>, e: Entries, key: string, now: int)
    requires p.Valid() && Backed(p, log, e)
    requires key in e ==> e[key].first <= now
    ensures Backed(p, log + [Failure(key, now)], AfterFail(p, e, key, now))
  {
    var log' := log + [Failure(key, now)];
    BackedGrows(p, log, Failure(key, now), e);
    var r := FailedRecord(p, e, key, now);
    var ids: set<nat> := {};
    if key in e && !OutsideWindow(p, e[key], now) {
      ids :| StandsFor(p, log, key, e[key], ids);
    }
    var newIds := ids + {|log|};
    assert log'[|log|] == Failure(key, now) && |log| in newIds;
    assert StandsFor(p, log', key, r, newIds);
  }

  lemma FirstInPast(p: Params, s: State, e: Entries, key: string)
    requires Inv(p, s) && Backed(p, s.log, e) && key in e
    ensures e[key].first <= s.now
  {
    var ids :| StandsFor(p, s.log, key, e[key], ids);
    assert ids != {};
    var i :| i in ids;
  }

  lemma LocalBacked(p: Params, s: State, n: nat, op: Op)
    requires p.Valid() && Inv(p, s) && n < |s.nodes|
    ensures Inv(p, Next(p, s, Local(n, op)))
  {
    var e := s.nodes[n].held;
    assert NodeBacked(p, s.log, s.nodes[n]);
    var s' := Next(p, s, Local(n, op));
    if Records(e, op, s.now) {
      var f := Failure(op.key, s.now);
      var asked := if op.Attempt? then AfterAllowed(p, e, op.key, s.now) else e;
      BackedMix(p, s.log, asked, e, e);
      if op.key in asked { FirstInPast(p, s, asked, op.key); }
      FailBacked(p, s.log, asked, op.key, s.now);
      BackedGrows(p, s.log, f, s.row);
      forall m | 0 <= m < |s'.nodes| ensures NodeBacked(p, s'.log, s'.nodes[m]) {
        NodeGrows(p, s.log, f, s.nodes[m]);
      }
    } else {
      BackedMix(p, s.log, s'.nodes[n].held, e, e);
    }
  }

  lemma StepBacked(p: Params, s: State, step: Step)
    requires p.Valid() && Inv(p, s)
    ensures Inv(p, Next(p, s, step))
  {
    if step.Tick? || step.n >= |s.nodes| {
    } else if step.Local? {
      LocalBacked(p, s, step.n, step.op);
    } else {
      var node := s.nodes[step.n];
      assert NodeBacked(p, s.log, node);
      if step.Take? {
        BackedMix(p, s.log, SnapshotOf(p, node.held, s.now), node.held, node.held);
      } else if step.Push? && node.taken.Some? {
        BackedMix(p, s.log, Merged(node.taken.value, s.row), node.taken.value, s.row);
      } else if step.Adopt? && node.pulled.Some? {
        BackedMix(p, s.log, Restored(p, node.held, node.pulled.value, s.now), node.held, node.pulled.value);
      }
    }
  }

  lemma {:induction false} RunBacked(p: Params, s: State, steps: seq<Step>)
    requires p.Valid() && Inv(p, s)
    ensures Inv(p, Exec(p, s, steps))
    decreases |steps|
  {
    if steps != [] {
      StepBacked(p, s, steps[0]);
      RunBacked(p, Next(p, s, steps[0]), steps[1..]);
    }
  }

  /** In every reachable state, a key is locked on a node only because at least `max` wrong passwords
      for that key were recorded somewhere within one window, and only for one lockout at most. */
  lemma NoInventedLocks(p: Params, s0: State, steps: seq<Step>, n: nat, key: string) returns (ids: set<nat>)
    requires p.Valid() && Initial(s0)
    requires s0.now >= ZERO_TIME
    requires var s := Exec(p, s0, steps); n < |s.nodes| && LockedAt(s.nodes[n].held, key, s.now)
    ensures var s := Exec(p, s0, steps); var r := s.nodes[n].held[key];
            && |ids| == r.count >= p.max
            && (forall i :: i in ids ==>
                  i < |s.log| && s.log[i].key == key && r.first <= s.log[i].at <= r.first + p.window)
            && r.lockedUntil <= s.now + p.lockout
  {
    RunBacked(p, s0, steps);
    ClockForward(p, s0, steps);
    var s := Exec(p, s0, steps);
    assert NodeBacked(p, s.log, s.nodes[n]);
    ids :| StandsFor(p, s.log, key, s.nodes[n].held[key], ids);
  }

  lemma {:induction false} ClockForward(p: Params, s: State, steps: seq<Step>)
    ensures Exec(p, s, steps).now >= s.now && |Exec(p, s, steps).nodes| == |s.nodes|
    decreases |steps|
  {
    if steps != [] { ClockForward(p, Next(p, s, steps[0]), steps[1..]); }
  }

  // ----- a lock reaches the other nodes

  predicate HoldsLock(e: Entries, key: string, until: int) { key in e && e[key].lockedUntil >= until }

  /** The row never forgets a lock, whatever any node does. */
  lemma {:induction false} RowKeepsLock(p: Params, s: State, steps: seq<Step>, key: string, until: int)
    requires HoldsLock(s.row, key, until)
    ensures HoldsLock(Exec(p, s, steps).row, key, until)
    decreases |steps|
  {
    if steps != [] { RowKeepsLock(p, Next(p, s, steps[0]), steps[1..], key, until); }
  }

  /** No exchange step and no restart of node `n`. */
  predicate NoExchange(steps: seq<Step>, n: nat) {
    forall i :: 0 <= i < |steps| ==> steps[i].Tick? || steps[i].Local? || steps[i].n != n
  }

  lemma {:induction false} ExchangeWaits(p: Params, s: State, steps: seq<Step>, n: nat)
    requires n < |s.nodes| && NoExchange(steps, n)
    ensures var s' := Exec(p, s, steps);
            n < |s'.nodes| && s'.nodes[n].taken == s.nodes[n].taken && s'.nodes[n].pulled == s.nodes[n].pulled
    decreases |steps|
  {
    if steps != [] {
      assert NoExchange(steps[1..], n) by {
        forall i | 0 <= i < |steps[1..]|
          ensures steps[1..][i].Tick? || steps[1..][i].Local? || steps[1..][i].n != n
        { assert steps[1..][i] == steps[i + 1]; }
      }
      ExchangeWaits(p, Next(p, s, steps[0]), steps[1..], n);
    }
  }

  /** Nothing that lifts a lock on `key` at node `n`: no Reset, no unguarded Fail, no restart. */
  predicate NoLift(steps: seq<Step>, n: nat, key: string) {
    forall i :: 0 <= i < |steps| ==> steps[i] != Local(n, Reset(key)) && steps[i] != Local(n, Fail(key))
                                     && steps[i] != Restart(n)
  }

  lemma {:induction false} NodeKeepsLock(p: Params, s: State, steps: seq<Step>, n: nat, key: string, until: int)
    requires n < |s.nodes| && NoLift(steps, n, key)
    requires HoldsLock(s.nodes[n].held, key, until) && Exec(p, s, steps).now < until
    ensures n < |Exec(p, s, steps).nodes| && HoldsLock(Exec(p, s, steps).nodes[n].held, key, until)
    decreases |steps|
  {
    if steps != [] {
      var s' := Next(p, s, steps[0]);
      ClockForward(p, s', steps[1..]);
      assert s.now < until;
      assert steps[0] != Local(n, Reset(key)) && steps[0] != Local(n, Fail(key)) && steps[0] != Restart(n);
      assert HoldsLock(s'.nodes[n].held, key, until);
      assert NoLift(steps[1..], n, key) by {
        forall i | 0 <= i < |steps[1..]|
          ensures steps[1..][i] != Local(n, Reset(key)) && steps[1..][i] != Local(n, Fail(key)) && steps[1..][i] != Restart(n)
        { assert steps[1..][i] == steps[i + 1]; }
      }
      NodeKeepsLock(p, s', steps[1..], n, key, until);
    }
  }

  /** Adopting a pulled lock takes effect exactly on a node that has no record of the key, or that
      already holds the key locked for as long. */
  lemma AdoptedLock(p: Params, s: State, n: nat, key: string, until: int)
    requires n < |s.nodes| && key != "" && s.now < until
    requires s.nodes[n].pulled.Some? && HoldsLock(s.nodes[n].pulled.value, key, until)
    requires Counted(s.nodes[n].pulled.value)
    ensures var s' := Next(p, s, Adopt(n));
            |s'.nodes| == |s.nodes| && s'.now == s.now &&
            (HoldsLock(s'.nodes[n].held, key, until)
             <==> key !in s.nodes[n].held || HoldsLock(s.nodes[n].held, key, until))
  {
  }

  /** So a lock does not reach every node: in every cluster that locks on the second failure, one
      failure on node 1 before the exchange is enough for it to go on letting in what node 0 locks. */
  lemma LockNotAdopted(p: Params, s0: State, key: string)
    requires p.Valid() && p.max == 2 && key != "" && Initial(s0) && |s0.nodes| >= 2
    requires s0.now >= ZERO_TIME
    ensures var s := Exec(p, s0, [Local(0, Attempt(key)), Local(0, Attempt(key)), Local(1, Attempt(key)), Take(0)]);
            var s' := Exec(p, s, [Push(0), Pull(1), Adopt(1)]);
            && |s'.nodes| == |s0.nodes| && LockedAt(s'.row, key, s'.now)
            && LockedAt(s'.nodes[0].held, key, s'.now) && !LockedAt(s'.nodes[1].held, key, s'.now)
  {
    var once, twice := map[key := Record(1, s0.now, ZERO_TIME)], map[key := Record(2, s0.now, s0.now + p.lockout)];
    var s1 := Next(p, s0, Local(0, Attempt(key)));
    assert s1.nodes[0].held == once;
    var s2 := Next(p, s1, Local(0, Attempt(key)));
    assert s2.nodes[0].held == twice;
    var s3 := Next(p, s2, Local(1, Attempt(key)));
    assert s3.nodes[1].held == once;
    var s4 := Next(p, s3, Take(0));
    assert SnapshotOf(p, twice, s0.now) == twice && s4.nodes[0] == Node(twice, Some(twice), None);
    ExecFour(p, s0, Local(0, Attempt(key)), Local(0, Attempt(key)), Local(1, Attempt(key)), Take(0));
    var s5 := Next(p, s4, Push(0));
    assert s5.row == twice;
    ExecThree(p, s4, Push(0), Pull(1), Adopt(1));
  }

  lemma ExecThree(p: Params, s: State, a: Step, b: Step, c: Step)
    ensures Exec(p, s, [a, b, c]) == Next(p, Next(p, Next(p, s, a), b), c)
  {
    assert [a, b, c][1..] == [b, c] && [b, c][1..] == [c] && [c][1..] == [];
    assert Exec(p, Next(p, s, a), [b, c]) == Exec(p, Next(p, Next(p, s, a), b), [c]);
  }

  lemma ExecFour(p: Params, s: State, a: Step, b: Step, c: Step, d: Step)
    ensures Exec(p, s, [a, b, c, d]) == Next(p, Next(p, Next(p, Next(p, s, a), b), c), d)
  {
    assert [a, b, c, d][1..] == [b, c, d];
    ExecThree(p, Next(p, s, a), b, c, d);
  }

  /** Once node `a` has pushed a snapshot taken while it held a lock, the row holds it. */
  lemma PushedLock(p: Params, s0: State, a: nat, key: string, toPush: seq<Step>)
    requires p.Valid() && Inv(p, s0) && a < |s0.nodes| && LockedAt(s0.nodes[a].held, key, s0.now)
    requires NoExchange(toPush, a)
    ensures var pushed := Next(p, Exec(p, Next(p, s0, Take(a)), toPush), Push(a));
            Inv(p, pushed) && |pushed.nodes| == |s0.nodes|
            && HoldsLock(pushed.row, key, s0.nodes[a].held[key].lockedUntil)
  {
    assert NodeBacked(p, s0.log, s0.nodes[a]);
    var ids :| StandsFor(p, s0.log, key, s0.nodes[a].held[key], ids);
    var s1 := Next(p, s0, Take(a));
    StepBacked(p, s0, Take(a));
    ExchangeWaits(p, s1, toPush, a);
    ClockForward(p, s1, toPush);
    RunBacked(p, s1, toPush);
    StepBacked(p, Exec(p, s1, toPush), Push(a));
  }

  /** Whatever happened since the push, what node `b` pulls and has yet to adopt holds the lock. */
  lemma PulledLock(p: Params, s: State, b: nat, key: string, until: int, toPull: seq<Step>, toAdopt: seq<Step>)
    requires p.Valid() && Inv(p, s) && b < |s.nodes| && HoldsLock(s.row, key, until) && NoExchange(toAdopt, b)
    ensures var adopting := Exec(p, Next(p, Exec(p, s, toPull), Pull(b)), toAdopt);
            |adopting.nodes| == |s.nodes| && adopting.nodes[b].pulled.Some?
            && HoldsLock(adopting.nodes[b].pulled.value, key, until) && Counted(adopting.nodes[b].pulled.value)
  {
    var s1 := Exec(p, s, toPull);
    RowKeepsLock(p, s, toPull, key, until);
    RunBacked(p, s, toPull);
    ClockForward(p, s, toPull);
    var s2 := Next(p, s1, Pull(b));
    BackedCounted(p, s1.log, s1.row);
    ExchangeWaits(p, s2, toAdopt, b);
    ClockForward(p, s2, toAdopt);
  }

  /** Node `a` holds a lock and takes a snapshot, later pushes it; node `b` later pulls, and later
      adopts while it has no record of the key. Whatever happens in between and afterwards, `b`
      refuses the key until the lock runs out. */
  lemma LockPropagates(p: Params, s0: State, a: nat, b: nat, key: string,
                       toPush: seq<Step>, toPull: seq<Step>, toAdopt: seq<Step>, after: seq<Step>)
    requires p.Valid() && Inv(p, s0) && a < |s0.nodes| && b < |s0.nodes| && key != ""
    requires LockedAt(s0.nodes[a].held, key, s0.now)
    requires NoExchange(toPush, a) && NoExchange(toAdopt, b) && NoLift(after, b, key)
    requires var pushed := Next(p, Exec(p, Next(p, s0, Take(a)), toPush), Push(a));
             var adopting := Exec(p, Next(p, Exec(p, pushed, toPull), Pull(b)), toAdopt);
             && b < |adopting.nodes| && key !in adopting.nodes[b].held
             && adopting.now < s0.nodes[a].held[key].lockedUntil
             && Exec(p, Next(p, adopting, Adopt(b)), after).now < s0.nodes[a].held[key].lockedUntil
    ensures var pushed := Next(p, Exec(p, Next(p, s0, Take(a)), toPush), Push(a));
            var adopting := Exec(p, Next(p, Exec(p, pushed, toPull), Pull(b)), toAdopt);
            var end := Exec(p, Next(p, adopting, Adopt(b)), after);
            b < |end.nodes| &&
            var (ok, until) := AllowedAnswer(end.nodes[b].held, key, end.now);
            !ok && until >= s0.nodes[a].held[key].lockedUntil
  {
    var until := s0.nodes[a].held[key].lockedUntil;
    var pushed := Next(p, Exec(p, Next(p, s0, Take(a)), toPush), Push(a));
    PushedLock(p, s0, a, key, toPush);
    PulledLock(p, pushed, b, key, until, toPull, toAdopt);
    var adopting := Exec(p, Next(p, Exec(p, pushed, toPull), Pull(b)), toAdopt);
    AdoptedLock(p, adopting, b, key, until);
    NodeKeepsLock(p, Next(p, adopting, Adopt(b)), after, b, key, until);
  }

  /** A node's whole exchange with nothing in between: what limiterPersist.sync does on its own. */
  function Exchanged(p: Params, s: State, n: nat): State {
    Next(p, Next(p, Next(p, Next(p, s, Take(n)), Push(n)), Pull(n)), Adopt(n))
  }

  function JoinedRow(p: Params, s: State, n: nat): Entries
    requires n < |s.nodes|
  {
    Merged(SnapshotOf(p, s.nodes[n].held, s.now), s.row)
  }

  lemma ExchangeEffect(p: Params, s: State, n: nat)
    requires n < |s.nodes|
    ensures var row := JoinedRow(p, s, n);
            Exchanged(p, s, n)
            == s.(row := row, nodes := s.nodes[n := Node(Restored(p, s.nodes[n].held, row, s.now), None, None)])
  {
    var s1 := Next(p, s, Take(n));
    var s2 := Next(p, s1, Push(n));
    var s3 := Next(p, s2, Pull(n));
    assert s2.row == JoinedRow(p, s, n) && s3.nodes[n] == Node(s.nodes[n].held, None, Some(s2.row));
    assert Next(p, s3, Adopt(n)).nodes == s.nodes[n := Next(p, s3, Adopt(n)).nodes[n]];
  }

  /** What a node keeps of the joined row adds nothing to it, and the row has nothing more to give. */
  lemma JoinedOnce(p: Params, held: Entries, row: Entries, now: int)
    ensures var joined := Merged(SnapshotOf(p, held, now), row);
            var after := Restored(p, held, joined, now);
            Merged(SnapshotOf(p, after, now), joined) == joined && Restored(p, after, joined, now) == after
  {
    var joined := Merged(SnapshotOf(p, held, now), row);
    var after := Restored(p, held, joined, now);
    assert Merged(SnapshotOf(p, after, now), joined).Keys == joined.Keys;
  }

  /** Exchanging again at once changes nothing: neither the node nor the row gives anything away. */
  lemma ExchangeIdempotent(p: Params, s: State, n: nat)
    requires n < |s.nodes|
    ensures Exchanged(p, Exchanged(p, s, n), n) == Exchanged(p, s, n)
  {
    ExchangeEffect(p, s, n);
    ExchangeEffect(p, Exchanged(p, s, n), n);
    JoinedOnce(p, s.nodes[n].held, s.row, s.now);
  }

  // ----- what becomes of a Reset

  /** A node without a record of the key takes over what the row has. */
  lemma JoinedAnswer(p: Params, held: Entries, row: Entries, key: string, now: int)
    requires key !in held && key != "" && Counted(row)
    ensures var joined := Merged(SnapshotOf(p, held, now), row);
            AllowedAnswer(Restored(p, held, joined, now), key, now) == AllowedAnswer(row, key, now)
  {
    var joined := Merged(SnapshotOf(p, held, now), row);
    assert key in joined <==> key in row;
    if key in row {
      assert joined[key] == row[key];
    }
  }

  /** Reset works on one node only. After the node's next exchange it answers for the key exactly as
      the row does, so that exchange undoes the Reset if and only if the row holds a lock. */
  lemma ResetThenExchange(p: Params, s: State, n: nat, key: string)
    requires p.Valid() && Inv(p, s) && n < |s.nodes| && key != ""
    ensures var s' := Exchanged(p, Next(p, s, Local(n, Reset(key))), n);
            && n < |s'.nodes| && s'.now == s.now
            && AllowedAnswer(s'.nodes[n].held, key, s'.now) == AllowedAnswer(s.row, key, s.now)
            && (AllowedAnswer(s'.nodes[n].held, key, s'.now).0 <==> !LockedAt(s.row, key, s.now))
  {
    var s1 := Next(p, s, Local(n, Reset(key)));
    StepBacked(p, s, Local(n, Reset(key)));
    BackedCounted(p, s1.log, s1.row);
    ExchangeEffect(p, s1, n);
    JoinedAnswer(p, s1.nodes[n].held, s1.row, key, s1.now);
  }

  /** No wrong password for the key is recorded anywhere. */
  predicate Calm(steps: seq<Step>, key: string) {
    forall i :: 0 <= i < |steps| ==> steps[i].Local? ==> steps[i].op != Fail(key) && steps[i].op != Attempt(key)
  }

  predicate NodeLocked(node: Node, key: string, now: int) {
    || LockedAt(node.held, key, now)
    || (node.taken.Some? && LockedAt(node.taken.value, key, now))
    || (node.pulled.Some? && LockedAt(node.pulled.value, key, now))
  }

  /** The row, a node, or an exchange that some node is in the middle of, holds a lock on the key. */
  ghost predicate LockedSomewhere(s: State, key: string) {
    LockedAt(s.row, key, s.now) || exists m :: 0 <= m < |s.nodes| && NodeLocked(s.nodes[m], key, s.now)
  }

  ghost predicate LocksAgain(p: Params, s: State, n: nat, key: string, steps: seq<Step>) {
    Calm(steps, key) && var s' := Exec(p, s, steps); n < |s'.nodes| && LockedAt(s'.nodes[n].held, key, s'.now)
  }

  lemma {:induction false} CalmRun(p: Params, s: State, steps: seq<Step>, key: string)
    requires Calm(steps, key) && !LockedSomewhere(s, key)
    ensures !LockedSomewhere(Exec(p, s, steps), key)
    decreases |steps|
  {
    if steps != [] {
      CalmStep(p, s, steps[0], key);
      assert Calm(steps[1..], key) by {
        forall i | 0 <= i < |steps[1..]| && steps[1..][i].Local?
          ensures steps[1..][i].op != Fail(key) && steps[1..][i].op != Attempt(key)
        { assert steps[1..][i] == steps[i + 1]; }
      }
      CalmRun(p, Next(p, s, steps[0]), steps[1..], key);
    }
  }

  lemma CalmStep(p: Params, s: State, step: Step, key: string)
    requires !LockedSomewhere(s, key) && (step.Local? ==> step.op != Fail(key) && step.op != Attempt(key))
    ensures !LockedSomewhere(Next(p, s, step), key)
  {
    var s' := Next(p, s, step);
    if !step.Tick? && step.n < |s.nodes| {
      assert !NodeLocked(s.nodes[step.n], key, s.now);
      assert !NodeLocked(s'.nodes[step.n], key, s.now);
    }
    forall m | 0 <= m < |s'.nodes| ensures !NodeLocked(s'.nodes[m], key, s'.now) {
      assert !NodeLocked(s.nodes[m], key, s.now);
    }
  }

  lemma {:induction false} ExecAppend(p: Params, s: State, a: seq<Step>, b: seq<Step>)
    ensures Exec(p, s, a + b) == Exec(p, Exec(p, s, a), b)
    decreases |a|
  {
    if a == [] {
      assert a + b == b;
    } else {
      assert (a + b)[1..] == a[1..] + b;
      ExecAppend(p, Next(p, s, a[0]), a[1..], b);
    }
  }

  /** A run without failures on the key, and with the clock standing still, that ends with a lock in the row. */
  ghost predicate LocksRow(p: Params, s: State, key: string, steps: seq<Step>) {
    && Calm(steps, key)
    && var s' := Exec(p, s, steps); |s'.nodes| == |s.nodes| && s'.now == s.now && LockedAt(s'.row, key, s'.now)
  }

  lemma TakenIntoRow(p: Params, s: State, m: nat, key: string)
    requires m < |s.nodes| && s.nodes[m].taken.Some? && LockedAt(s.nodes[m].taken.value, key, s.now)
    ensures LocksRow(p, s, key, [Push(m)])
  {
    assert Exec(p, s, [Push(m)]) == Exec(p, Next(p, s, Push(m)), []);
  }

  lemma HeldIntoRow(p: Params, s: State, m: nat, key: string)
    requires m < |s.nodes| && LockedAt(s.nodes[m].held, key, s.now) && Counted(s.nodes[m].held)
    ensures LocksRow(p, s, key, [Take(m), Push(m)])
  {
    var s1 := Next(p, s, Take(m));
    TakenIntoRow(p, s1, m, key);
    assert [Take(m), Push(m)][1..] == [Push(m)];
  }

  lemma PulledIntoHeld(p: Params, s: State, m: nat, key: string)
    requires m < |s.nodes| && s.nodes[m].pulled.Some? && LockedAt(s.nodes[m].pulled.value, key, s.now)
    requires Counted(s.nodes[m].pulled.value) && key != ""
    ensures var s' := Exec(p, s, [Local(m, Reset(key)), Adopt(m)]);
            |s'.nodes| == |s.nodes| && s'.now == s.now && LockedAt(s'.nodes[m].held, key, s'.now)
  {
    var s1 := Next(p, s, Local(m, Reset(key)));
    assert [Local(m, Reset(key)), Adopt(m)][1..] == [Adopt(m)];
    assert Exec(p, s1, [Adopt(m)]) == Exec(p, Next(p, s1, Adopt(m)), []);
  }

  /** A lock that node `m` has somewhere gets into the row. */
  lemma IntoRow(p: Params, s: State, m: nat, key: string) returns (steps: seq<Step>)
    requires p.Valid() && Inv(p, s) && m < |s.nodes| && key != "" && NodeLocked(s.nodes[m], key, s.now)
    ensures LocksRow(p, s, key, steps)
  {
    var node := s.nodes[m];
    assert NodeBacked(p, s.log, node);
    if node.taken.Some? && LockedAt(node.taken.value, key, s.now) {
      steps := [Push(m)];
      TakenIntoRow(p, s, m, key);
    } else if LockedAt(node.held, key, s.now) {
      steps := [Take(m), Push(m)];
      BackedCounted(p, s.log, node.held);
      HeldIntoRow(p, s, m, key);
    } else {
      var first := [Local(m, Reset(key)), Adopt(m)];
      BackedCounted(p, s.log, node.pulled.value);
      PulledIntoHeld(p, s, m, key);
      RunBacked(p, s, first);
      var s' := Exec(p, s, first);
      assert NodeBacked(p, s'.log, s'.nodes[m]);
      BackedCounted(p, s'.log, s'.nodes[m].held);
      HeldIntoRow(p, s', m, key);
      ExecAppend(p, s, first, [Take(m), Push(m)]);
      steps := first + [Take(m), Push(m)];
    }
  }

  /** A lock in the row gets to node `n`. */
  lemma FromRow(p: Params, s: State, n: nat, key: string) returns (steps: seq<Step>)
    requires p.Valid() && Inv(p, s) && n < |s.nodes| && key != "" && LockedAt(s.row, key, s.now)
    ensures LocksAgain(p, s, n, key, steps)
  {
    BackedCounted(p, s.log, s.row);
    steps := [Local(n, Reset(key)), Pull(n), Adopt(n)];
    ExecThree(p, s, steps[0], Pull(n), Adopt(n));
  }

  /** A Reset is final if and only if it removed the last copy of the lock: without another wrong
      password, some run locks the key on that node again exactly when the row, another node, or an
      exchange under way still holds a lock. */
  lemma ResetFinal(p: Params, s: State, n: nat, key: string)
    requires p.Valid() && Inv(p, s) && n < |s.nodes| && key != ""
    ensures var s' := Next(p, s, Local(n, Reset(key)));
            (exists steps :: LocksAgain(p, s', n, key, steps)) <==> LockedSomewhere(s', key)
  {
    var s' := Next(p, s, Local(n, Reset(key)));
    StepBacked(p, s, Local(n, Reset(key)));
    if LockedSomewhere(s', key) {
      var toRow: seq<Step> := [];
      if !LockedAt(s'.row, key, s'.now) {
        var m :| 0 <= m < |s'.nodes| && NodeLocked(s'.nodes[m], key, s'.now);
        toRow := IntoRow(p, s', m, key);
      }
      RunBacked(p, s', toRow);
      var toNode := FromRow(p, Exec(p, s', toRow), n, key);
      ExecAppend(p, s', toRow, toNode);
      assert LocksAgain(p, s', n, key, toRow + toNode);
    } else {
      forall steps ensures !LocksAgain(p, s', n, key, steps) {
        if Calm(steps, key) {
          CalmRun(p, s', steps, key);
          var end := Exec(p, s', steps);
          assert n < |end.nodes| ==> !NodeLocked(end.nodes[n], key, end.now);
        }
      }
    }
  }
}
