/** The three ways a route picks one of its backends. */
module LoadBalancer {
  import opened Prelude

  type Uint64 = x: int | 0 <= x < TWO_64

  /** Conversion of a uint64 to a 64-bit int. */
  function AsInt(u: int): int { if u < TWO_63 then u else u - TWO_64 }

  /** Go's remainder: it has the sign of the dividend. */
  function GoMod(a: int, b: int): int
    requires b != 0
  {
    var m := if b > 0 then b else -b;
    if a >= 0 then a % m else -((-a) % m)
  }

  /** What `next` gives: no backend, a backend by its position, or an index panic. */
  datatype Pick = Nobody | Index(i: nat) | Panic

  function Sum(ws: seq<int>): int {
    if ws == [] then 0 else Sum(ws[..|ws| - 1]) + ws[|ws| - 1]
  }

  /** The loop of `weighted` from backend `i` on, with the weights before it summed up. */
  function Search(ws: seq<int>, pos: int, i: nat): (found: nat)
    requires i <= |ws|
    ensures ws != [] ==> found < |ws|
    decreases |ws| - i
  {
    if i == |ws| then 0 else if pos < Sum(ws[..i + 1]) then i else Search(ws, pos, i + 1)
  }

  function WeightedPick(ws: seq<int>, ticket: int): nat {
    if Sum(ws) == 0 then 0 else Search(ws, GoMod(AsInt(ticket), Sum(ws)), 0)
  }

  function RoundRobinPick(n: nat, ticket: int): Pick
    requires n > 0
  {
    var i := GoMod(AsInt(ticket), n);
    if i < 0 then Panic else Index(i)
  }

  ghost predicate FirstMinimum(cs: seq<int>, i: nat) {
    && i < |cs|
    && (forall j :: 0 <= j < |cs| ==> cs[i] <= cs[j])
    && (forall j :: 0 <= j < i ==> cs[i] < cs[j])
  }

  class Backend {
    const target: string
    const weight: int
    var activeConns: int

    constructor (target: string, weight: int)
      ensures this.target == target && this.weight == weight && activeConns == 0
    {
      this.target, this.weight, this.activeConns := target, weight, 0;
    }
  }

  function Weights(backends: seq<Backend>): (ws: seq<int>)
    ensures |ws| == |backends| && forall i :: 0 <= i < |ws| ==> ws[i] == backends[i].weight
  {
    seq(|backends|, i requires 0 <= i < |backends| => backends[i].weight)
  }

  ghost function Conns(backends: seq<Backend>): (cs: seq<int>)
    reads backends
    ensures |cs| == |backends| && forall i :: 0 <= i < |cs| ==> cs[i] == backends[i].activeConns
  {
    seq(|backends|, i requires 0 <= i < |backends| reads backends => backends[i].activeConns)
  }

  class Balancer {
    const backends: seq<Backend>
    const strategy: string
    var rr: Uint64

    constructor (backends: seq<Backend>, strategy: string)
      ensures this.backends == backends && this.strategy == strategy && rr == 0
    {
      this.backends, this.strategy, this.rr := backends, strategy, 0;
    }

    /** One atomic increment; the ticket is the value before it. */
    method Ticket() returns (ticket: int)
      modifies this
      ensures ticket == old(rr) && rr == (old(rr) + 1) % TWO_64
    {
      ticket := rr;
      rr := (rr + 1) % TWO_64;
    }

    method RoundRobin() returns (pick: Pick)
      requires backends != []
      modifies this
      ensures rr == (old(rr) + 1) % TWO_64
      ensures pick == RoundRobinPick(|backends|, old(rr))
    {
      var ticket := Ticket();
      var idx := GoMod(AsInt(ticket), |backends|);
      return if idx < 0 then Panic else Index(idx);
    }

    method Weighted() returns (i: nat)
      requires backends != []
      modifies this
      ensures rr == if Sum(Weights(backends)) == 0 then old(rr) else (old(rr) + 1) % TWO_64
      ensures i == WeightedPick(Weights(backends), old(rr))
    {
      ghost var ws := Weights(backends);
      var total := 0;
      for k := 0 to |backends|
        invariant total == Sum(ws[..k]) && rr == old(rr)
      {
        assert ws[..k + 1][..k] == ws[..k];
        total := total + backends[k].weight;
      }
      assert ws[..|ws|] == ws;
      if total == 0 {
        return 0;
      }
      var ticket := Ticket();
      var pos, cumulative := GoMod(AsInt(ticket), total), 0;
      for k := 0 to |backends|
        invariant cumulative == Sum(ws[..k])
        invariant WeightedPick(ws, old(rr)) == Search(ws, pos, k)
      {
        assert ws[..k + 1][..k] == ws[..k];
        cumulative := cumulative + backends[k].weight;
        if pos < cumulative {
          return k;
        }
      }
      return 0;
    }

    method LeastConns() returns (i: nat)
      requires backends != []
      ensures FirstMinimum(Conns(backends), i)
    {
      var best, bestConns := -1, -1;
      for k := 0 to |backends|
        invariant k == 0 <==> best == -1
        invariant k > 0 ==> 0 <= best < k && bestConns == backends[best].activeConns
        invariant forall j :: 0 <= j < k ==> bestConns <= backends[j].activeConns
        invariant forall j :: 0 <= j < best ==> bestConns < backends[j].activeConns
      {
        var c := backends[k].activeConns;
        if best == -1 || c < bestConns {
          best, bestConns := k, c;
        }
      }
      return best;
    }

    /** What `next` picks in this state. */
    ghost predicate MayPick(pick: Pick)
      reads this, backends
    {
      if backends == [] then pick == Nobody
      else match strategy
           case "weighted" => pick == Index(WeightedPick(Weights(backends), rr))
           case "least-connections" => pick.Index? && FirstMinimum(Conns(backends), pick.i)
           case _ => pick == RoundRobinPick(|backends|, rr)
    }

    /** The ticket counter after `next`: only a pick that needs a ticket takes one. */
    ghost function TicketAfter(): int
      reads this
    {
      if backends == [] || strategy == "least-connections" || (strategy == "weighted" && Sum(Weights(backends)) == 0)
      then rr else (rr + 1) % TWO_64
    }

    method Next() returns (pick: Pick)
      modifies this
      ensures old(MayPick(pick)) && (pick.Index? ==> pick.i < |backends|)
      ensures rr == old(TicketAfter())
      ensures pick == Nobody <==> backends == []
      ensures backends != [] && strategy == "least-connections" ==>
        pick.Index? && old(FirstMinimum(Conns(backends), pick.i)) && rr == old(rr)
      ensures backends != [] && strategy == "weighted" && Sum(Weights(backends)) == 0 ==>
        pick == Index(0) && rr == old(rr)
    {
      if backends == [] {
        return Nobody;
      }
      if strategy == "weighted" {
        var i := Weighted();
        return Index(i);
      } else if strategy == "least-connections" {
        var i := LeastConns();
        return Index(i);
      }
      pick := RoundRobin();
    }
  }

  // ----- exact shares

  predicate Positive(ws: seq<int>) { ws != [] && forall i :: 0 <= i < |ws| ==> ws[i] >= 1 }

  lemma {:induction false} SumPrefix(ws: seq<int>, i: nat, j: nat)
    requires i <= j <= |ws| && forall k :: 0 <= k < |ws| ==> ws[k] >= 1
    ensures Sum(ws[..j]) >= Sum(ws[..i]) + (j - i) && Sum(ws[..0]) == 0
    ensures i < |ws| ==> Sum(ws[..i + 1]) == Sum(ws[..i]) + ws[i]
    decreases j - i
  {
    if i < |ws| { assert ws[..i + 1][..i] == ws[..i]; }
    if i < j {
      assert ws[..j][..j - 1] == ws[..j - 1];
      SumPrefix(ws, i, j - 1);
    }
  }

  /** Backend `i` owns exactly the positions of its own slice, so the search never falls through. */
  lemma {:induction false} SearchFinds(ws: seq<int>, pos: int, from: nat, i: nat)
    requires Positive(ws) && from <= i < |ws| && Sum(ws[..i]) <= pos < Sum(ws[..i + 1])
    ensures Search(ws, pos, from) == i
    decreases i - from
  {
    if from < i {
      SumPrefix(ws, from + 1, i);
      SearchFinds(ws, pos, from + 1, i);
    }
  }

  lemma SliceOf(ws: seq<int>, pos: int, n: nat) returns (i: nat)
    requires Positive(ws) && n <= |ws| && 0 <= pos < Sum(ws[..n])
    ensures i < n && Sum(ws[..i]) <= pos < Sum(ws[..i + 1])
  {
    SumPrefix(ws, 0, n);
    i := n - 1;
    while pos < Sum(ws[..i])
      invariant i < n && pos < Sum(ws[..i + 1])
      decreases i
    {
      SumPrefix(ws, 0, i);
      i := i - 1;
    }
  }

  /** Every position is answered by exactly the backend whose slice holds it. */
  lemma PositionOwner(ws: seq<int>, pos: int, i: nat)
    requires Positive(ws) && 0 <= pos < Sum(ws) && i < |ws|
    ensures Search(ws, pos, 0) == i <==> Sum(ws[..i]) <= pos < Sum(ws[..i + 1])
  {
    assert ws[..|ws|] == ws;
    var owner := SliceOf(ws, pos, |ws|);
    SearchFinds(ws, pos, 0, owner);
    if Sum(ws[..i]) <= pos < Sum(ws[..i + 1]) { SearchFinds(ws, pos, 0, i); }
  }

  /** How many of the `n` tickets from `from` on go to backend `i`. */
  function Served(ws: seq<int>, i: nat, from: nat, n: nat): nat {
    if n == 0 then 0
    else Served(ws, i, from, n - 1) + if WeightedPick(ws, from + n - 1) == i then 1 else 0
  }

  function Clamp(x: int, top: int): int { if x < 0 then 0 else if x > top then top else x }

  /** The tickets, of the first `n`, that fall in a slice of `w` positions after the first `before`
      of every `total`. */
  function Share(total: int, w: int, before: int, n: nat): int
    requires total > 0
  {
    (n / total) * w + Clamp(n % total - before, w)
  }

  lemma DivModUnique(n: int, w: int, q: int, r: int)
    requires w > 0 && n == q * w + r && 0 <= r < w
    ensures n / w == q && n % w == r
  {
    assert n == (n / w) * w + n % w;
    var d := n / w - q;
    assert d * w == r - n % w;
    if d >= 1 { MulMonotone(1, d, w); }
    if d <= -1 { MulMonotone(d, -1, w); }
  }

  lemma DivModStep(n: nat, w: int)
    requires w > 0
    ensures if n % w + 1 == w then (n + 1) / w == n / w + 1 && (n + 1) % w == 0
            else (n + 1) / w == n / w && (n + 1) % w == n % w + 1
  {
    var q, r := n / w, n % w;
    assert n + 1 == q * w + (r + 1);
    if r + 1 == w {
      assert n + 1 == (q + 1) * w;
      DivModUnique(n + 1, w, q + 1, 0);
    } else {
      DivModUnique(n + 1, w, q, r + 1);
    }
  }

  lemma ShareStep(total: int, w: int, before: int, n: nat)
    requires 1 <= w && 0 <= before <= total - w
    ensures Share(total, w, before, n + 1)
         == Share(total, w, before, n) + if before <= n % total < before + w then 1 else 0
  {
    DivModStep(n, total);
    var q := n / total;
    assert (q + 1) * w == q * w + w;
  }

  lemma SharePeriod(total: int, w: int, before: int, n: nat)
    requires total > 0
    ensures Share(total, w, before, n + total) == Share(total, w, before, n) + w
  {
    var q, r := n / total, n % total;
    assert n + total == (q + 1) * total + r;
    DivModUnique(n + total, total, q + 1, r);
    assert (q + 1) * w == q * w + w;
  }

  lemma ClampDeviation(total: int, w: int, before: int, r: int)
    requires 1 <= w <= total && 0 <= before <= total - w && 0 <= r < total
    ensures -(w * (total - w)) <= total * Clamp(r - before, w) - r * w <= w * (total - w)
  {
    var spare := total - w;
    MulMonotone(0, r, w);
    if r <= before {
      MulMonotone(r, spare, w);
      Deviation(total, w, 0, r);
    } else if r - before >= w {
      MulMonotone(0, total - r, w);
      MulMonotone(total - r, spare, w);
      Deviation(total, w, w, r);
    } else {
      MulMonotone(before, spare, w);
      MulMonotone(0, before, w);
      MulMonotone(r - before, w, spare);
      MulMonotone(0, r - before, spare);
      Deviation(total, w, r - before, r);
    }
  }

  lemma Deviation(total: int, w: int, c: int, r: int)
    ensures total * c - r * w == c * (total - w) - (r - c) * w
    ensures (total - r) * w == (total - w) * w - (r - w) * w
    ensures w * (total - w) == (total - w) * w
  {
  }

  lemma ShareOff(total: int, w: int, before: int, n: nat)
    requires 1 <= w <= total && 0 <= before <= total - w
    ensures -(w * (total - w)) <= total * Share(total, w, before, n) - n * w <= w * (total - w)
  {
    var q, r := n / total, n % total;
    ClampDeviation(total, w, before, r);
    var c := Clamp(r - before, w);
    assert total * (q * w + c) == (q * total) * w + total * c;
    assert n * w == (q * total + r) * w == (q * total) * w + r * w;
  }

  lemma SliceInside(ws: seq<int>, i: nat)
    requires Positive(ws) && i < |ws|
    ensures ws[i] >= 1 && 0 <= Sum(ws[..i]) <= Sum(ws) - ws[i] && Sum(ws[..i + 1]) == Sum(ws[..i]) + ws[i]
  {
    assert ws[..|ws|] == ws;
    SumPrefix(ws, 0, i);
    SumPrefix(ws, i, |ws|);
    SumPrefix(ws, i + 1, |ws|);
  }

  lemma {:induction false} ServedFromZero(ws: seq<int>, i: nat, n: nat)
    requires Positive(ws) && i < |ws| && n <= TWO_63
    ensures Sum(ws) > 0 && Served(ws, i, 0, n) == Share(Sum(ws), ws[i], Sum(ws[..i]), n)
  {
    SliceInside(ws, i);
    var w := Sum(ws);
    if n > 0 {
      ServedFromZero(ws, i, n - 1);
      ShareStep(w, ws[i], Sum(ws[..i]), n - 1);
      PositionOwner(ws, (n - 1) % w, i);
      assert WeightedPick(ws, n - 1) == Search(ws, (n - 1) % w, 0);
    } else {
      DivModUnique(0, w, 0, 0);
    }
  }

  lemma {:induction false} ServedSplits(ws: seq<int>, i: nat, from: nat, n: nat)
    ensures Served(ws, i, 0, from + n) == Served(ws, i, 0, from) + Served(ws, i, from, n)
    decreases n
  {
    if n > 0 { ServedSplits(ws, i, from, n - 1); }
  }

  /** Any full round of consecutive tickets serves every backend exactly as often as its weight says. */
  lemma ExactShares(ws: seq<int>, i: nat, from: nat)
    requires Positive(ws) && i < |ws| && from + Sum(ws) <= TWO_63
    ensures Sum(ws) > 0 && Served(ws, i, from, Sum(ws)) == ws[i]
  {
    SliceInside(ws, i);
    var w := Sum(ws);
    ServedSplits(ws, i, from, w);
    ServedFromZero(ws, i, from);
    ServedFromZero(ws, i, from + w);
    SharePeriod(w, ws[i], Sum(ws[..i]), from);
  }

  /** After any number of tickets, a backend is off its proportional share by a bounded amount. */
  lemma ShareDeviation(ws: seq<int>, i: nat, n: nat)
    requires Positive(ws) && i < |ws| && n <= TWO_63
    ensures var off := Sum(ws) * Served(ws, i, 0, n) - n * ws[i];
            -(ws[i] * (Sum(ws) - ws[i])) <= off <= ws[i] * (Sum(ws) - ws[i])
  {
    SliceInside(ws, i);
    ServedFromZero(ws, i, n);
    ShareOff(Sum(ws), ws[i], Sum(ws[..i]), n);
  }

  lemma {:induction false} SumOfOnes(ws: seq<int>, n: nat)
    requires n <= |ws| && forall i :: 0 <= i < |ws| ==> ws[i] == 1
    ensures Sum(ws[..n]) == n
  {
    if n > 0 {
      assert ws[..n][..n - 1] == ws[..n - 1];
      SumOfOnes(ws, n - 1);
    }
  }

  /** Round-robin is the weighted strategy with every weight 1. */
  lemma RoundRobinIsUnitWeighted(ws: seq<int>, ticket: nat)
    requires ws != [] && ticket < TWO_63 && forall i :: 0 <= i < |ws| ==> ws[i] == 1
    ensures RoundRobinPick(|ws|, ticket) == Index(WeightedPick(ws, ticket))
  {
    assert ws[..|ws|] == ws;
    SumOfOnes(ws, |ws|);
    var i := ticket % |ws|;
    SumOfOnes(ws, i);
    SumOfOnes(ws, i + 1);
    PositionOwner(ws, i, i);
  }

  /** Once the ticket no longer fits a signed int, weighted sends everything to the first backend, and
      so is right only by chance; round-robin answers only the tickets that divide evenly. */
  lemma TicketsPastSignedRange(ws: seq<int>, ticket: int)
    requires Positive(ws) && 0 <= ticket < TWO_64
    ensures RoundRobinPick(|ws|, ticket) != Panic <==> ticket < TWO_63 || (TWO_64 - ticket) % |ws| == 0
    ensures ticket >= TWO_63 ==> WeightedPick(ws, ticket) == 0
    ensures Sum(ws) > 0 && (WeightedPick(ws, ticket) == Search(ws, ticket % Sum(ws), 0)
                            <==> ticket < TWO_63 || ticket % Sum(ws) < ws[0])
  {
    assert ws[..|ws|] == ws;
    SumPrefix(ws, 0, |ws|);
    SumPrefix(ws, 0, 1);
    PositionOwner(ws, ticket % Sum(ws), 0);
  }

  /** The first ticket past the signed range, over three equal backends: round-robin panics, and
      weighted picks the first although it is the last one's turn. */
  lemma FirstTicketPastRange()
    ensures RoundRobinPick(3, TWO_63) == Panic
    ensures WeightedPick([1, 1, 1], TWO_63) == 0 && Search([1, 1, 1], TWO_63 % 3, 0) == 2
  {
    var ws := [1, 1, 1];
    SumOfOnes(ws, 1);
    SumOfOnes(ws, 2);
    SumOfOnes(ws, 3);
    assert ws[..3] == ws;
    TicketsPastSignedRange(ws, TWO_63);
    PositionOwner(ws, 2, 2);
  }

  // ----- a balancer over a series of requests

  /** The weights by which a balancer that works with tickets deals out its picks. */
  function DealtWeights(lb: Balancer): seq<int> {
    if lb.strategy == "weighted" then Weights(lb.backends) else seq(|lb.backends|, _ => 1)
  }

  lemma TicketPick(lb: Balancer)
    requires lb.backends != [] && lb.strategy != "least-connections" && Positive(DealtWeights(lb))
    requires lb.rr < TWO_63
    ensures forall pick :: lb.MayPick(pick) ==> pick == Index(WeightedPick(DealtWeights(lb), lb.rr))
    ensures lb.TicketAfter() == lb.rr + 1
  {
    var ws := DealtWeights(lb);
    SliceInside(ws, 0);
    if lb.strategy != "weighted" { RoundRobinIsUnitWeighted(ws, lb.rr); }
  }

  /** What `k` calls of `next` in a row give. */
  method NextTimes(lb: Balancer, k: nat) returns (picks: seq<Pick>)
    requires lb.backends != [] && lb.strategy != "least-connections" && Positive(DealtWeights(lb))
    requires lb.rr + k <= TWO_63
    modifies lb
    ensures lb.rr == old(lb.rr) + k && |picks| == k
    ensures forall j :: 0 <= j < k ==> picks[j] == Index(WeightedPick(DealtWeights(lb), old(lb.rr) + j))
    ensures forall i: nat :: multiset(picks)[Index(i)] == Served(DealtWeights(lb), i, old(lb.rr), k)
    ensures k == Sum(DealtWeights(lb)) ==>
              forall i: nat :: i < |lb.backends| ==> multiset(picks)[Index(i)] == DealtWeights(lb)[i]
  {
    ghost var ws := DealtWeights(lb);
    picks := [];
    for j := 0 to k
      invariant lb.rr == old(lb.rr) + j && |picks| == j
      invariant forall l :: 0 <= l < j ==> picks[l] == Index(WeightedPick(ws, old(lb.rr) + l))
      invariant forall i: nat :: multiset(picks)[Index(i)] == Served(ws, i, old(lb.rr), j)
    {
      TicketPick(lb);
      var pick := lb.Next();
      picks := picks + [pick];
    }
    if k == Sum(ws) {
      forall i: nat | i < |ws| ensures Served(ws, i, old(lb.rr), k) == ws[i] { ExactShares(ws, i, old(lb.rr)); }
    }
  }

  // ----- least connections

  /** `n` connections spread over `size` backends, the earlier ones first. */
  function Even(n: nat, size: nat): (cs: seq<int>)
    requires size > 0
  {
    seq(size, j => n / size + if j < n % size then 1 else 0)
  }

  /** The connections after a series of picks, each followed by one more connection there. */
  function Connected(cs: seq<int>, picks: seq<nat>): seq<int>
    requires forall k :: 0 <= k < |picks| ==> picks[k] < |cs|
  {
    if picks == [] then cs
    else
      var before := Connected(cs, picks[..|picks| - 1]);
      var i := picks[|picks| - 1];
      if i < |before| then before[i := before[i] + 1] else before
  }

  ghost predicate LeastPicks(cs: seq<int>, picks: seq<nat>) {
    && (forall k :: 0 <= k < |picks| ==> picks[k] < |cs|)
    && forall k :: 0 <= k < |picks| ==> FirstMinimum(Connected(cs, picks[..k]), picks[k])
  }

  lemma EvenStep(n: nat, size: nat, i: nat)
    requires size > 0 && FirstMinimum(Even(n, size), i)
    ensures i == n % size && Even(n, size)[i := Even(n, size)[i] + 1] == Even(n + 1, size)
  {
    var cs := Even(n, size);
    var low := n % size;
    assert cs[low] == n / size && cs[i] <= cs[low];
    DivModStep(n, size);
  }

  /** From idle, with no connection closing, least-connections keeps every backend within one of
      every other: it deals connections out exactly as round-robin would. */
  lemma {:induction false} LeastConnectionsBalance(size: nat, picks: seq<nat>)
    requires size > 0 && LeastPicks(seq(size, _ => 0), picks)
    ensures Connected(seq(size, _ => 0), picks) == Even(|picks|, size)
    ensures forall k :: 0 <= k < |picks| ==> picks[k] == k % size
    decreases |picks|
  {
    var idle := seq(size, _ => 0);
    if picks == [] {
      DivModUnique(0, size, 0, 0);
    } else {
      var n := |picks| - 1;
      var front := picks[..n];
      assert LeastPicks(idle, front) by {
        forall k | 0 <= k < |front| ensures FirstMinimum(Connected(idle, front[..k]), front[k]) {
          assert front[..k] == picks[..k] && FirstMinimum(Connected(idle, picks[..k]), picks[k]);
        }
      }
      LeastConnectionsBalance(size, front);
      assert FirstMinimum(Connected(idle, picks[..n]), picks[n]);
      EvenStep(n, size, picks[n]);
      forall k | 0 <= k < |picks| ensures picks[k] == k % size {
        if k < n { assert front[k] == picks[k]; }
      }
    }
  }

  /** Every backend is an object of its own. */
  predicate Distinct(backends: seq<Backend>) {
    forall i, j :: 0 <= i < j < |backends| ==> backends[i] != backends[j]
  }

  /** One pick: the first of the least connected backends, and one more connection there. */
  ghost predicate Dealt(cs: seq<int>, i: nat, after: seq<int>) {
    FirstMinimum(cs, i) && after == cs[i := cs[i] + 1]
  }

  ghost predicate Trace(states: seq<seq<int>>, picks: seq<nat>, size: nat) {
    && |states| == |picks| + 1
    && (forall j :: 0 <= j < |states| ==> |states[j]| == size)
    && forall j :: 0 <= j < |picks| ==> Dealt(states[j], picks[j], states[j + 1])
  }

  lemma TraceMore(states: seq<seq<int>>, picks: seq<nat>, size: nat, i: nat, after: seq<int>)
    requires Trace(states, picks, size) && Dealt(states[|picks|], i, after)
    ensures Trace(states + [after], picks + [i], size)
  {
    var states', picks' := states + [after], picks + [i];
    forall j | 0 <= j < |picks'| ensures Dealt(states'[j], picks'[j], states'[j + 1]) {
      if j < |picks| { assert Dealt(states[j], picks[j], states[j + 1]); }
    }
  }

  lemma {:induction false} ConnectedAt(states: seq<seq<int>>, picks: seq<nat>, size: nat, k: nat)
    requires Trace(states, picks, size) && k <= |picks|
    ensures forall j :: 0 <= j < |picks| ==> picks[j] < |states[0]|
    ensures Connected(states[0], picks[..k]) == states[k]
  {
    forall j | 0 <= j < |picks| ensures picks[j] < size { assert Dealt(states[j], picks[j], states[j + 1]); }
    if k > 0 {
      ConnectedAt(states, picks, size, k - 1);
      assert picks[..k][..k - 1] == picks[..k - 1] && Dealt(states[k - 1], picks[k - 1], states[k]);
    }
  }

  lemma TracePicks(states: seq<seq<int>>, picks: seq<nat>, size: nat)
    requires Trace(states, picks, size)
    ensures LeastPicks(states[0], picks) && Connected(states[0], picks) == states[|picks|]
  {
    ConnectedAt(states, picks, size, |picks|);
    assert picks[..|picks|] == picks;
    forall k | 0 <= k < |picks| ensures FirstMinimum(Connected(states[0], picks[..k]), picks[k]) {
      ConnectedAt(states, picks, size, k);
      assert Dealt(states[k], picks[k], states[k + 1]);
    }
  }

  /** One pick by the connections, and one more connection to the backend picked. */
  method ConnectOnce(lb: Balancer) returns (i: nat)
    requires lb.backends != [] && lb.strategy == "least-connections" && Distinct(lb.backends)
    modifies lb, lb.backends
    ensures Dealt(old(Conns(lb.backends)), i, Conns(lb.backends))
  {
    ghost var cs := Conns(lb.backends);
    var pick := lb.Next();
    assert Conns(lb.backends) == cs;
    i := pick.i;
    var b := lb.backends[i];
    b.activeConns := b.activeConns + 1;
  }

  /** `k` calls of `next` in a row, each followed by one more connection to the backend it picked. */
  method ConnectTimes(lb: Balancer, k: nat) returns (picks: seq<nat>)
    requires lb.backends != [] && lb.strategy == "least-connections" && Distinct(lb.backends)
    modifies lb, lb.backends
    ensures |picks| == k && LeastPicks(old(Conns(lb.backends)), picks)
    ensures Conns(lb.backends) == Connected(old(Conns(lb.backends)), picks)
    ensures (forall b :: b in lb.backends ==> old(b.activeConns) == 0) ==>
              Conns(lb.backends) == Even(k, |lb.backends|) && forall j :: 0 <= j < k ==> picks[j] == j % |lb.backends|
  {
    ghost var states := [Conns(lb.backends)];
    picks := [];
    for j := 0 to k
      invariant |picks| == j && Trace(states, picks, |lb.backends|)
      invariant states[0] == old(Conns(lb.backends)) && states[j] == Conns(lb.backends)
    {
      var i := ConnectOnce(lb);
      TraceMore(states, picks, |lb.backends|, i, Conns(lb.backends));
      picks, states := picks + [i], states + [Conns(lb.backends)];
    }
    TracePicks(states, picks, |lb.backends|);
    if forall b :: b in lb.backends ==> old(b.activeConns) == 0 {
      assert states[0] == seq(|lb.backends|, _ => 0);
      LeastConnectionsBalance(|lb.backends|, picks);
    }
  }
}
