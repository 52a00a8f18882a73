/** Request counters shared by all requests: RecordRequest as threads that move one atomic step at a time. */
module Metrics {
  import opened Prelude

  datatype Phase =
    | Started
    | Missed              // the read lock was released without a counter for the key
    | Holding(added: nat) // the three pointers are known, `added` of the three atomic adds are done

  /** One call: its key, its duration, and the pointers it has looked up. */
  datatype Call = Call(key: string, nanos: int, phase: Phase, total: nat, duration: nat, count: nat)

  /** The three maps hold pointers to cells; a pointer is a position in `cells`. */
  datatype State = State(requestTotal: map<string, nat>, requestDuration: map<string, nat>, requestCount: map<string, nat>,
                         cells: seq<int>, calls: seq<Call>)

  function Get(m: map<string, nat>, key: string): nat { if key in m then m[key] else 0 }

  function Looked(s: State, c: Call): Call {
    c.(phase := Holding(0), total := Get(s.requestTotal, c.key),
       duration := Get(s.requestDuration, c.key), count := Get(s.requestCount, c.key))
  }

  /** Under the write lock: three new cells, unless another call was faster. */
  function Installed(s: State, key: string): State {
    if key in s.requestTotal then s
    else
      var n := |s.cells|;
      s.(requestTotal := s.requestTotal[key := n], requestDuration := s.requestDuration[key := n + 1],
         requestCount := s.requestCount[key := n + 2], cells := s.cells + [0, 0, 0])
  }

  /** atomic.AddUint64. */
  function Added(cells: seq<int>, p: nat, x: int): seq<int> {
    if p < |cells| then cells[p := (cells[p] + x) % TWO_64] else cells
  }

  /** Call `t` makes its next step; a call that is done makes none. */
  function Next(s: State, t: nat): State {
    if t >= |s.calls| then s
    else
      var c := s.calls[t];
      match c.phase
      case Started =>
        s.(calls := s.calls[t := if c.key in s.requestTotal then Looked(s, c) else c.(phase := Missed)])
      case Missed =>
        var s' := Installed(s, c.key);
        s'.(calls := s.calls[t := Looked(s', c)])
      case Holding(n) =>
        if n >= 3 then s
        else s.(cells := if n == 0 then Added(s.cells, c.total, 1)
                         else if n == 1 then Added(s.cells, c.duration, c.nanos)
                         else Added(s.cells, c.count, 1),
                calls := s.calls[t := c.(phase := Holding(n + 1))])
  }

  /** What the calls on `key` have added so far to its cell number `slot` (0 total, 1 duration, 2 count). */
  function Tally(calls: seq<Call>, key: string, slot: nat): int {
    if calls == [] then 0 else Tally(calls[..|calls| - 1], key, slot) + Share(calls[|calls| - 1], key, slot)
  }

  function Share(c: Call, key: string, slot: nat): int {
    if c.key == key && c.phase.Holding? && c.phase.added > slot then (if slot == 1 then c.nanos else 1) else 0
  }

  /** Every key has three cells of its own, next to each other. */
  ghost predicate Layout(s: State) {
    && s.requestTotal.Keys == s.requestDuration.Keys == s.requestCount.Keys
    && (forall k :: k in s.requestTotal ==>
          && s.requestTotal[k] + 2 < |s.cells|
          && s.requestDuration[k] == s.requestTotal[k] + 1 && s.requestCount[k] == s.requestTotal[k] + 2)
    && (forall j, k :: j in s.requestTotal && k in s.requestTotal && j != k ==>
          s.requestTotal[j] + 3 <= s.requestTotal[k] || s.requestTotal[k] + 3 <= s.requestTotal[j])
  }

  /** A call that holds pointers holds those installed for its key. */
  ghost predicate Current(s: State, c: Call) {
    c.phase.Holding? ==>
      && c.key in s.requestTotal && c.key in s.requestDuration && c.key in s.requestCount
      && c.total == s.requestTotal[c.key] && c.duration == s.requestDuration[c.key] && c.count == s.requestCount[c.key]
  }

  ghost predicate AllCurrent(s: State) { forall t :: 0 <= t < |s.calls| ==> Current(s, s.calls[t]) }

  /** The cells of `k` hold what was added to them, modulo 2^64. */
  ghost predicate Exact(s: State, k: string) {
    forall slot :: 0 <= slot < 3 ==>
      if k in s.requestTotal then
        var p := s.requestTotal[k] + slot;
        p < |s.cells| && s.cells[p] == Tally(s.calls, k, slot) % TWO_64
      else Tally(s.calls, k, slot) == 0
  }

  ghost predicate Inv(s: State) { Layout(s) && AllCurrent(s) && forall k :: Exact(s, k) }

  lemma {:induction false} TallyUpdate(calls: seq<Call>, t: nat, c: Call, key: string, slot: nat)
    requires t < |calls|
    ensures Tally(calls[t := c], key, slot) == Tally(calls, key, slot) - Share(calls[t], key, slot) + Share(c, key, slot)
    decreases |calls|
  {
    var n := |calls| - 1;
    if t < n {
      assert calls[t := c][..n] == calls[..n][t := c];
      TallyUpdate(calls[..n], t, c, key, slot);
    } else {
      assert calls[t := c][..n] == calls[..n];
    }
  }

  lemma InstallExact(s: State, key: string, k: string)
    requires Layout(s) && Exact(s, k) && key !in s.requestTotal
    ensures Exact(Installed(s, key), k)
  {
    var s' := Installed(s, key);
    assert s'.cells[..|s.cells|] == s.cells;
    if k in s.requestTotal {
      assert s'.requestTotal[k] == s.requestTotal[k];
    }
  }

  lemma InstallKeeps(s: State, key: string)
    requires Inv(s)
    ensures Inv(Installed(s, key)) && key in Installed(s, key).requestTotal
  {
    var s' := Installed(s, key);
    if key !in s.requestTotal {
      assert Layout(s');
      forall k ensures Exact(s', k) {
        assert Exact(s, k);
        InstallExact(s, key, k);
      }
      forall t | 0 <= t < |s'.calls| ensures Current(s', s'.calls[t]) { assert Current(s, s.calls[t]); }
    }
  }

  /** A call that looks its pointers up, or fails to, adds nothing. */
  lemma LookExact(s: State, t: nat, c: Call, k: string)
    requires Exact(s, k) && t < |s.calls| && !s.calls[t].phase.Holding?
    requires c.phase.Holding? ==> c.phase.added == 0
    ensures Exact(s.(calls := s.calls[t := c]), k)
  {
    TallyUpdate(s.calls, t, c, k, 0);
    TallyUpdate(s.calls, t, c, k, 1);
    TallyUpdate(s.calls, t, c, k, 2);
  }

  lemma LookKeeps(s: State, t: nat, c: Call)
    requires Inv(s) && t < |s.calls| && !s.calls[t].phase.Holding?
    requires !c.phase.Holding? || (c.key in s.requestTotal && c == Looked(s, c))
    ensures Inv(s.(calls := s.calls[t := c]))
  {
    var s' := s.(calls := s.calls[t := c]);
    forall k ensures Exact(s', k) {
      assert Exact(s, k);
      LookExact(s, t, c, k);
    }
    assert Layout(s');
    forall u | 0 <= u < |s'.calls| ensures Current(s', s'.calls[u]) { assert Current(s, s.calls[u]); }
  }

  lemma ModAdds(a: int, b: int)
    ensures (a % TWO_64 + b) % TWO_64 == (a + b) % TWO_64
  {
  }

  lemma CellsApart(s: State, j: string, k: string, m: nat, n: nat)
    requires Layout(s) && j in s.requestTotal && k in s.requestTotal && m < 3 && n < 3 && (j != k || m != n)
    ensures s.requestTotal[j] + m != s.requestTotal[k] + n
  {
  }

  /** What an atomic add does, whichever of the three it is. */
  lemma AddShape(s: State, t: nat)
    requires Layout(s) && t < |s.calls| && Current(s, s.calls[t])
    requires s.calls[t].phase.Holding? && s.calls[t].phase.added < 3
    ensures var c := s.calls[t]; var n := c.phase.added;
            var p := s.requestTotal[c.key] + n;
            p < |s.cells|
            && Next(s, t).cells == s.cells[p := (s.cells[p] + if n == 1 then c.nanos else 1) % TWO_64]
            && Next(s, t).calls == s.calls[t := c.(phase := Holding(n + 1))]
  {
  }

  /** Adding to one cell leaves the others, and this one with the sum. */
  lemma CellUpdate(cells: seq<int>, p: nat, x: int, sum: int)
    requires p < |cells|
    ensures var cells' := cells[p := (cells[p] + x) % TWO_64];
            && (forall q :: 0 <= q < |cells| && q != p ==> cells'[q] == cells[q])
            && (cells[p] == sum % TWO_64 ==> cells'[p] == (sum + x) % TWO_64)
  {
    ModAdds(sum, x);
  }

  /** The cell that is added to, and the tally of it. */
  lemma AddOwn(s: State, t: nat)
    requires Inv(s) && t < |s.calls| && s.calls[t].phase.Holding? && s.calls[t].phase.added < 3
    ensures var c, s' := s.calls[t], Next(s, t); var n := c.phase.added;
            c.key in s.requestTotal && var p := s.requestTotal[c.key] + n;
            p < |s'.cells| && s'.cells[p] == Tally(s'.calls, c.key, n) % TWO_64
  {
    var c := s.calls[t];
    var n := c.phase.added;
    assert Current(s, c) && Exact(s, c.key);
    AddShape(s, t);
    var x, sum := if n == 1 then c.nanos else 1, Tally(s.calls, c.key, n);
    TallyUpdate(s.calls, t, c.(phase := Holding(n + 1)), c.key, n);
    CellUpdate(s.cells, s.requestTotal[c.key] + n, x, sum);
    assert Tally(Next(s, t).calls, c.key, n) == sum + x;
  }

  /** Any other cell. */
  lemma AddOther(s: State, t: nat, k: string, slot: nat)
    requires Inv(s) && t < |s.calls| && s.calls[t].phase.Holding? && s.calls[t].phase.added < 3 && slot < 3
    requires k in s.requestTotal && (k != s.calls[t].key || slot != s.calls[t].phase.added)
    ensures var s' := Next(s, t); var p := s.requestTotal[k] + slot;
            p < |s'.cells| && s'.cells[p] == Tally(s'.calls, k, slot) % TWO_64
  {
    var c := s.calls[t];
    var c' := c.(phase := Holding(c.phase.added + 1));
    assert Current(s, c) && Exact(s, k);
    AddShape(s, t);
    CellsApart(s, c.key, k, c.phase.added, slot);
    TallyUpdate(s.calls, t, c', k, slot);
    assert Share(c', k, slot) == Share(c, k, slot);
  }

  lemma AddAllExact(s: State, t: nat, k: string)
    requires Inv(s) && t < |s.calls| && s.calls[t].phase.Holding? && s.calls[t].phase.added < 3
    ensures Exact(Next(s, t), k)
  {
    var c := s.calls[t];
    assert Exact(s, k) && Current(s, c);
    AddShape(s, t);
    if k in s.requestTotal {
      forall slot: nat | slot < 3
        ensures var s' := Next(s, t); var p := s.requestTotal[k] + slot;
                p < |s'.cells| && s'.cells[p] == Tally(s'.calls, k, slot) % TWO_64
      {
        if k == c.key && slot == c.phase.added { AddOwn(s, t); } else { AddOther(s, t, k, slot); }
      }
    } else {
      var c' := c.(phase := Holding(c.phase.added + 1));
      TallyUpdate(s.calls, t, c', k, 0);
      TallyUpdate(s.calls, t, c', k, 1);
      TallyUpdate(s.calls, t, c', k, 2);
    }
  }

  lemma AddKeeps(s: State, t: nat)
    requires Inv(s) && t < |s.calls| && s.calls[t].phase.Holding? && s.calls[t].phase.added < 3
    ensures Inv(Next(s, t))
  {
    var s' := Next(s, t);
    forall k ensures Exact(s', k) { AddAllExact(s, t, k); }
    assert Current(s, s.calls[t]);
    AddShape(s, t);
    assert Layout(s');
    forall u | 0 <= u < |s'.calls| ensures Current(s', s'.calls[u]) { assert Current(s, s.calls[u]); }
  }

  lemma StepKeeps(s: State, t: nat)
    requires Inv(s)
    ensures Inv(Next(s, t))
  {
    if t < |s.calls| {
      var c := s.calls[t];
      if c.phase.Started? {
        LookKeeps(s, t, Next(s, t).calls[t]);
      } else if c.phase.Missed? {
        InstallKeeps(s, c.key);
        LookKeeps(Installed(s, c.key), t, Next(s, t).calls[t]);
      } else if c.phase.added < 3 {
        AddKeeps(s, t);
      }
    }
  }

  function Exec(s: State, schedule: seq<nat>): State
    decreases |schedule|
  {
    if schedule == [] then s else Exec(Next(s, schedule[0]), schedule[1..])
  }

  lemma {:induction false} RunKeeps(s: State, schedule: seq<nat>)
    requires Inv(s)
    ensures Inv(Exec(s, schedule))
    decreases |schedule|
  {
    if schedule != [] {
      StepKeeps(s, schedule[0]);
      RunKeeps(Next(s, schedule[0]), schedule[1..]);
    }
  }

  /** Once installed, the counters of a key are never replaced. */
  lemma {:induction false} CountersStay(s: State, schedule: seq<nat>, key: string)
    requires key in s.requestTotal && key in s.requestDuration && key in s.requestCount
    ensures var s' := Exec(s, schedule);
            && key in s'.requestTotal && s'.requestTotal[key] == s.requestTotal[key]
            && key in s'.requestDuration && s'.requestDuration[key] == s.requestDuration[key]
            && key in s'.requestCount && s'.requestCount[key] == s.requestCount[key]
    decreases |schedule|
  {
    if schedule != [] { CountersStay(Next(s, schedule[0]), schedule[1..], key); }
  }

  lemma {:induction false} SameCalls(s: State, schedule: seq<nat>)
    ensures |Exec(s, schedule).calls| == |s.calls|
    ensures forall t :: 0 <= t < |s.calls| ==>
      Exec(s, schedule).calls[t].key == s.calls[t].key && Exec(s, schedule).calls[t].nanos == s.calls[t].nanos
    decreases |schedule|
  {
    if schedule != [] { SameCalls(Next(s, schedule[0]), schedule[1..]); }
  }

  predicate Initial(s: State) {
    && s.requestTotal == map[] && s.requestDuration == map[] && s.requestCount == map[] && s.cells == []
    && forall t :: 0 <= t < |s.calls| ==> s.calls[t].phase.Started?
  }

  predicate Finished(s: State) {
    forall t :: 0 <= t < |s.calls| ==> s.calls[t].phase.Holding? && s.calls[t].phase.added >= 3
  }

  function CallsOf(calls: seq<Call>, key: string): nat {
    if calls == [] then 0 else CallsOf(calls[..|calls| - 1], key) + if calls[|calls| - 1].key == key then 1 else 0
  }

  function NanosOf(calls: seq<Call>, key: string): int {
    if calls == [] then 0
    else NanosOf(calls[..|calls| - 1], key) + if calls[|calls| - 1].key == key then calls[|calls| - 1].nanos else 0
  }

  lemma {:induction false} FinishedTally(before: seq<Call>, after: seq<Call>, key: string)
    requires |before| == |after|
    requires forall t :: 0 <= t < |after| ==>
      && after[t].key == before[t].key && after[t].nanos == before[t].nanos
      && after[t].phase.Holding? && after[t].phase.added >= 3
    ensures Tally(after, key, 0) == Tally(after, key, 2) == CallsOf(before, key)
    ensures Tally(after, key, 1) == NanosOf(before, key)
    decreases |before|
  {
    if before != [] { FinishedTally(before[..|before| - 1], after[..|after| - 1], key); }
  }

  lemma {:induction false} InitialTally(calls: seq<Call>, key: string, slot: nat)
    requires forall t :: 0 <= t < |calls| ==> calls[t].phase.Started?
    ensures Tally(calls, key, slot) == 0
    decreases |calls|
  {
    if calls != [] { InitialTally(calls[..|calls| - 1], key, slot); }
  }

  lemma InitialInv(s: State)
    requires Initial(s)
    ensures Inv(s)
  {
    forall k ensures Exact(s, k) {
      InitialTally(s.calls, k, 0);
      InitialTally(s.calls, k, 1);
      InitialTally(s.calls, k, 2);
    }
  }

  /** Whatever the schedule, once every call has finished no request is lost and none is counted twice. */
  lemma NoLostCounts(s0: State, schedule: seq<nat>, t: nat)
    requires Initial(s0) && t < |s0.calls| && Finished(Exec(s0, schedule))
    ensures var s, key := Exec(s0, schedule), s0.calls[t].key;
            && key in s.requestTotal && key in s.requestDuration && key in s.requestCount
            && s.requestTotal[key] < |s.cells| && s.requestDuration[key] < |s.cells| && s.requestCount[key] < |s.cells|
            && s.cells[s.requestTotal[key]] == s.cells[s.requestCount[key]] == CallsOf(s0.calls, key) % TWO_64
            && s.cells[s.requestDuration[key]] == NanosOf(s0.calls, key) % TWO_64
  {
    InitialInv(s0);
    RunKeeps(s0, schedule);
    SameCalls(s0, schedule);
    var s, key := Exec(s0, schedule), s0.calls[t].key;
    assert Current(s, s.calls[t]) && s.calls[t].key == key;
    FinishedTally(s0.calls, s.calls, key);
    assert Exact(s, key);
  }
}
