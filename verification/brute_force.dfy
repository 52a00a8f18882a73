/** How many wrong passwords the limiter lets through on one key. Requests may overlap: a request asks
    Allowed, checks the password, and only then records the failure, whatever others did meanwhile. */
module BruteForce {
  import opened Prelude
  import opened Security
  import opened LimiterRuns

  datatype Move =
    | Enter            // a request asks Allowed, and is under way if it says yes
    | Wrong            // a request under way turns out to have a wrong password: Fail
    | Leave            // a request under way ends without recording a failure
    | Other(op: Op)    // anything else that is done to the limiter

  datatype Timestamped = At(move: Move, now: int)

  /** The limiter's table, and how many requests on the key are under way. */
  datatype Flow = Flow(e: Entries, underWay: nat)

  function Moved(p: Params, f: Flow, key: string, m: Timestamped): Flow {
    match m.move
    case Enter => Flow(AfterAllowed(p, f.e, key, m.now), f.underWay + if LockedAt(f.e, key, m.now) then 0 else 1)
    case Wrong => Flow(AfterFail(p, f.e, key, m.now), if f.underWay > 0 then f.underWay - 1 else 0)
    case Leave => Flow(f.e, if f.underWay > 0 then f.underWay - 1 else 0)
    case Other(op) => Flow(Effect(p, f.e, Timed(op, m.now)), f.underWay)
  }

  /** At most `crowd` requests on the key are under way at a time, and none of them logs in. */
  predicate CanMove(f: Flow, key: string, crowd: nat, m: Timestamped) {
    match m.move
    case Enter => LockedAt(f.e, key, m.now) || f.underWay < crowd
    case Wrong => f.underWay > 0
    case Leave => f.underWay > 0
    case Other(op) => op != Fail(key) && op != Reset(key) && op != Attempt(key)
  }

  predicate Flows(p: Params, f: Flow, ms: seq<Timestamped>, key: string, crowd: nat, from: int)
    decreases |ms|
  {
    ms == [] || (from <= ms[0].now && CanMove(f, key, crowd, ms[0])
                 && Flows(p, Moved(p, f, key, ms[0]), ms[1..], key, crowd, ms[0].now))
  }

  function Flowed(p: Params, f: Flow, key: string, ms: seq<Timestamped>): Flow
    decreases |ms|
  {
    if ms == [] then f else Flowed(p, Moved(p, f, key, ms[0]), key, ms[1..])
  }

  /** How many password checks failed. */
  function Wrongs(ms: seq<Timestamped>): nat {
    if ms == [] then 0 else (if ms[0].move.Wrong? then 1 else 0) + Wrongs(ms[1..])
  }

  function LastAt(ms: seq<Timestamped>, from: int): int { if ms == [] then from else ms[|ms| - 1].now }

  /** A run that starts with `m`. */
  lemma FirstMove(p: Params, f: Flow, key: string, crowd: nat, from: int, m: Timestamped, rest: seq<Timestamped>)
    requires from <= m.now && CanMove(f, key, crowd, m)
    ensures var ms := [m] + rest;
            && (Flows(p, f, ms, key, crowd, from) <==> Flows(p, Moved(p, f, key, m), rest, key, crowd, m.now))
            && Wrongs(ms) == (if m.move.Wrong? then 1 else 0) + Wrongs(rest)
            && Flowed(p, f, key, ms) == Flowed(p, Moved(p, f, key, m), key, rest)
            && LastAt(ms, from) == LastAt(rest, m.now)
  {
    assert ([m] + rest)[1..] == rest;
  }

  /** The most failures that fit in one window. */
  function PerWindow(p: Params, crowd: nat): int
    requires p.Valid()
  {
    p.max - 1 + (p.window / p.lockout + 1) * crowd
  }

  // ----- the invariant

  /** Failures come in rounds from the max-th on: a round starts on an unlocked key, and while the lock
      it sets is in force only requests already under way can fail. Rounds start one lockout apart. */
  ghost predicate Paced(p: Params, crowd: nat, underWay: nat, r: Record, rounds: int, now: int) {
    && r.count >= 1 && r.first <= now
    && if r.count < p.max then rounds == 0
       else
         && rounds >= 1 && r.count <= p.max - 1 + rounds * crowd
         && (now < r.lockedUntil ==> r.count + underWay <= p.max - 1 + rounds * crowd)
         && r.first + rounds * p.lockout <= r.lockedUntil <= r.first + p.window + p.lockout
         && r.lockedUntil <= now + p.lockout
  }

  /** `windows` counts the windows opened so far, `rounds` the rounds in the last of them. */
  datatype Ledger = Ledger(windows: int, rounds: int)

  ghost predicate Charged(p: Params, crowd: nat, f: Flow, key: string, guesses: int, l: Ledger, start: int, now: int)
    requires p.Valid()
  {
    && l.windows >= 0 && f.underWay <= crowd
    && if key in f.e then
         && Paced(p, crowd, f.underWay, f.e[key], l.rounds, now)
         && l.windows >= 1
         && guesses <= (l.windows - 1) * PerWindow(p, crowd) + f.e[key].count
         && f.e[key].first >= start + (l.windows - 1) * p.window
       else
         guesses <= l.windows * PerWindow(p, crowd) && now >= start + l.windows * p.window
  }

  lemma DivBound(m: int, w: int, l: int)
    requires l > 0 && m * l <= w
    ensures m <= w / l
  {
    if m >= w / l + 1 { MulMonotone(w / l + 1, m, l); }
  }

  lemma CountBound(p: Params, crowd: nat, underWay: nat, r: Record, rounds: int, now: int)
    requires p.Valid() && Paced(p, crowd, underWay, r, rounds, now)
    ensures r.count <= PerWindow(p, crowd)
  {
    DivBound(0, p.window, p.lockout);
    if r.count >= p.max {
      assert rounds * p.lockout == (rounds - 1) * p.lockout + p.lockout;
      DivBound(rounds - 1, p.window, p.lockout);
      MulMonotone(rounds, p.window / p.lockout + 1, crowd);
    } else {
      MulMonotone(0, p.window / p.lockout + 1, crowd);
    }
  }

  /** The record of `key` goes away only when its window is over. */
  lemma WindowOver(p: Params, crowd: nat, f: Flow, key: string, guesses: int, l: Ledger, start: int, now: int)
    requires p.Valid() && key in f.e && Charged(p, crowd, f, key, guesses, l, start, now)
    requires OutsideWindow(p, f.e[key], now)
    ensures Charged(p, crowd, f.(e := f.e - {key}), key, guesses, l, start, now)
  {
    CountBound(p, crowd, f.underWay, f.e[key], l.rounds, now);
    assert (l.windows - 1) * p.window == l.windows * p.window - p.window;
    assert (l.windows - 1) * PerWindow(p, crowd) == l.windows * PerWindow(p, crowd) - PerWindow(p, crowd);
  }

  lemma BumpPaced(p: Params, crowd: nat, underWay: nat, r: Record, rounds: int, now: int) returns (rounds': int)
    requires p.Valid() && r.first <= now && !OutsideWindow(p, r, now) && 1 <= underWay <= crowd
    requires r.count == 0 || Paced(p, crowd, underWay, r, rounds, now)
    ensures Paced(p, crowd, underWay - 1, Bumped(p, r, now), rounds', now)
  {
    if r.count + 1 < p.max {
      rounds' := 0;
    } else if r.count + 1 == p.max {
      rounds' := 1;
    } else if now < r.lockedUntil {
      rounds' := rounds;
    } else {
      rounds' := rounds + 1;
      assert (rounds + 1) * p.lockout == rounds * p.lockout + p.lockout;
      assert (rounds + 1) * crowd == rounds * crowd + crowd;
    }
  }

  lemma WrongCharged(p: Params, crowd: nat, f: Flow, key: string, guesses: int, l: Ledger, start: int, now: int)
      returns (l': Ledger)
    requires p.Valid() && Charged(p, crowd, f, key, guesses, l, start, now) && f.underWay > 0
    requires key in f.e ==> !OutsideWindow(p, f.e[key], now)
    ensures Charged(p, crowd, Moved(p, f, key, At(Wrong, now)), key, guesses + 1, l', start, now)
  {
    if key in f.e {
      var rounds := BumpPaced(p, crowd, f.underWay, f.e[key], l.rounds, now);
      l' := Ledger(l.windows, rounds);
    } else {
      var rounds := BumpPaced(p, crowd, f.underWay, Record(0, now, ZERO_TIME), 0, now);
      l' := Ledger(l.windows + 1, rounds);
    }
  }

  lemma LaterCharged(p: Params, crowd: nat, f: Flow, key: string, guesses: int, l: Ledger, start: int, now: int,
                     later: int)
    requires p.Valid() && Charged(p, crowd, f, key, guesses, l, start, now) && now <= later
    ensures Charged(p, crowd, f, key, guesses, l, start, later)
  {
  }

  lemma StepCharged(p: Params, crowd: nat, f: Flow, key: string, guesses: int, l: Ledger, start: int, now: int,
                    m: Timestamped)
      returns (l': Ledger)
    requires p.Valid() && Charged(p, crowd, f, key, guesses, l, start, now)
    requires now <= m.now && CanMove(f, key, crowd, m)
    ensures Charged(p, crowd, Moved(p, f, key, m), key, guesses + (if m.move.Wrong? then 1 else 0), l', start, m.now)
  {
    LaterCharged(p, crowd, f, key, guesses, l, start, now, m.now);
    l' := l;
    if key in f.e && OutsideWindow(p, f.e[key], m.now) {
      WindowOver(p, crowd, f, key, guesses, l, start, m.now);
    }
    if m.move.Wrong? {
      var g := if key in f.e && OutsideWindow(p, f.e[key], m.now) then f.(e := f.e - {key}) else f;
      l' := WrongCharged(p, crowd, g, key, guesses, l, start, m.now);
      assert Moved(p, g, key, m) == Moved(p, f, key, m);
    }
  }

  lemma ChargedTotal(p: Params, crowd: nat, f: Flow, key: string, guesses: int, l: Ledger, start: int, now: int)
    requires p.Valid() && Charged(p, crowd, f, key, guesses, l, start, now)
    ensures guesses <= ((now - start) / p.window + 1) * PerWindow(p, crowd)
  {
    var full := if key in f.e then l.windows - 1 else l.windows;
    DivBound(full, now - start, p.window);
    if key in f.e { CountBound(p, crowd, f.underWay, f.e[key], l.rounds, now); }
    DivBound(0, p.window, p.lockout);
    MulMonotone(0, p.window / p.lockout + 1, crowd);
    assert (l.windows - 1) * PerWindow(p, crowd) + PerWindow(p, crowd) == l.windows * PerWindow(p, crowd);
    MulMonotone(l.windows, (now - start) / p.window + 1, PerWindow(p, crowd));
  }

  lemma {:induction false} RunCharged(p: Params, crowd: nat, f: Flow, ms: seq<Timestamped>, key: string,
                                      guesses: int, l: Ledger, start: int, now: int)
    requires p.Valid() && Charged(p, crowd, f, key, guesses, l, start, now)
    requires Flows(p, f, ms, key, crowd, now)
    ensures guesses + Wrongs(ms) <= ((LastAt(ms, now) - start) / p.window + 1) * PerWindow(p, crowd)
    decreases |ms|
  {
    if ms == [] {
      ChargedTotal(p, crowd, f, key, guesses, l, start, now);
    } else {
      var l' := StepCharged(p, crowd, f, key, guesses, l, start, now, ms[0]);
      var g := guesses + if ms[0].move.Wrong? then 1 else 0;
      RunCharged(p, crowd, Moved(p, f, key, ms[0]), ms[1..], key, g, l', start, ms[0].now);
      assert LastAt(ms[1..], ms[0].now) == LastAt(ms, now);
    }
  }

  /** However requests overlap, and whatever happens to other keys and to the table, at most this many
      password checks on one key fail while nobody logs in on it. */
  lemma CrowdBound(p: Params, ms: seq<Timestamped>, key: string, crowd: nat, start: int)
    requires p.Valid() && Flows(p, Flow(map[], 0), ms, key, crowd, start)
    ensures Wrongs(ms) <= ((LastAt(ms, start) - start) / p.window + 1)
                          * (p.max - 1 + (p.window / p.lockout + 1) * crowd)
  {
    RunCharged(p, crowd, Flow(map[], 0), ms, key, 0, Ledger(0, 0), start, start);
  }

  // ----- one request at a time

  /** How many attempts on `key` reach the password check and fail. */
  function Guesses(p: Params, e: Entries, ts: seq<Timed>, key: string): nat
    decreases |ts|
  {
    if ts == [] then 0
    else (if ts[0].op == Attempt(key) && !LockedAt(e, key, ts[0].now) then 1 else 0)
         + Guesses(p, Effect(p, e, ts[0]), ts[1..], key)
  }

  /** Every operation on `key` is one that a client without the password can cause. */
  predicate OnlyGuarded(ts: seq<Timed>, key: string) {
    forall i :: 0 <= i < |ts| ==> ts[i].op != Fail(key) && ts[i].op != Reset(key)
  }

  /** The same run move by move. */
  function Moves(p: Params, e: Entries, ts: seq<Timed>, key: string): seq<Timestamped>
    decreases |ts|
  {
    if ts == [] then []
    else
      var t := ts[0];
      (if t.op != Attempt(key) then [At(Other(t.op), t.now)]
       else if LockedAt(e, key, t.now) then [At(Enter, t.now)]
       else [At(Enter, t.now), At(Wrong, t.now)])
      + Moves(p, Effect(p, e, t), ts[1..], key)
  }

  lemma {:induction false} MovesOfRun(p: Params, e: Entries, ts: seq<Timed>, key: string, from: int)
    requires Timely(ts, from) && OnlyGuarded(ts, key)
    ensures var ms := Moves(p, e, ts, key);
            && Flows(p, Flow(e, 0), ms, key, 1, from) && Wrongs(ms) == Guesses(p, e, ts, key)
            && LastAt(ms, from) == EndOf(ts, from)
    decreases |ts|
  {
    if ts != [] {
      var t, e' := ts[0], Effect(p, e, ts[0]);
      assert OnlyGuarded(ts[1..], key) by {
        forall i | 0 <= i < |ts[1..]| ensures ts[1..][i].op != Fail(key) && ts[1..][i].op != Reset(key) {
          assert ts[1..][i] == ts[i + 1];
        }
      }
      MovesOfRun(p, e', ts[1..], key, t.now);
      var ms, rest := Moves(p, e, ts, key), Moves(p, e', ts[1..], key);
      var f := Moved(p, Flow(e, 0), key, ms[0]);
      if t.op == Attempt(key) && !LockedAt(e, key, t.now) {
        assert ms[1..][1..] == rest && Moved(p, f, key, ms[1]) == Flow(e', 0);
        assert Flows(p, f, ms[1..], key, 1, t.now);
        assert Wrongs(ms[1..]) == 1 + Wrongs(rest);
      } else {
        assert ms[1..] == rest && f == Flow(e', 0);
      }
      assert EndOf(ts[1..], t.now) == EndOf(ts, from);
    }
  }

  /** A client that keeps guessing on one key, one request after the other, gets at most this many
      tries in any run, whatever other keys do and whenever gc runs. */
  lemma BruteForceBound(p: Params, ts: seq<Timed>, key: string, start: int)
    requires p.Valid() && Timely(ts, start) && OnlyGuarded(ts, key)
    ensures Guesses(p, map[], ts, key)
         <= ((EndOf(ts, start) - start) / p.window + 1) * (p.max + p.window / p.lockout)
  {
    MovesOfRun(p, map[], ts, key, start);
    CrowdBound(p, Moves(p, map[], ts, key), key, 1, start);
  }

  // ----- the bound is attained

  /** From move `x` of round `g` on: `crowd` requests enter together as soon as the lock is over, and
      then all of them fail. */
  function Rounds(p: Params, crowd: nat, g: nat, x: nat): seq<Timestamped>
    requires p.Valid() && crowd > 0
    decreases p.window / p.lockout + 1 - g, 2 * crowd - x
  {
    if g > p.window / p.lockout then []
    else if x < 2 * crowd then
      [At(if x < crowd then Enter else Wrong, g * p.lockout)] + Rounds(p, crowd, g, x + 1)
    else Rounds(p, crowd, g + 1, 0)
  }

  /** `n` single failures at the start of the window, and then `tail`. */
  function Singles(n: nat, tail: seq<Timestamped>): seq<Timestamped> {
    if n == 0 then tail else [At(Enter, 0), At(Wrong, 0)] + Singles(n - 1, tail)
  }

  function Held(key: string, count: nat, until: int): Entries {
    if count == 0 then map[] else map[key := Record(count, 0, until)]
  }

  function RoundState(p: Params, crowd: nat, key: string, g: nat, x: nat): Flow
    requires p.Valid() && x <= 2 * crowd
  {
    if x <= crowd then Flow(Held(key, p.max - 1 + g * crowd, g * p.lockout), x)
    else Flow(Held(key, p.max - 1 + g * crowd + (x - crowd), (g + 1) * p.lockout), 2 * crowd - x)
  }

  lemma RoundTimes(p: Params, g: nat)
    requires p.Valid() && g <= p.window / p.lockout
    ensures 0 <= g * p.lockout <= p.window && (g + 1) * p.lockout == g * p.lockout + p.lockout
  {
    MulMonotone(0, g, p.lockout);
    MulMonotone(g, p.window / p.lockout, p.lockout);
  }

  lemma RoundStep(p: Params, crowd: nat, key: string, g: nat, x: nat)
    requires p.Valid() && crowd > 0 && g <= p.window / p.lockout && x < 2 * crowd
    ensures var m := At(if x < crowd then Enter else Wrong, g * p.lockout);
            CanMove(RoundState(p, crowd, key, g, x), key, crowd, m)
            && Moved(p, RoundState(p, crowd, key, g, x), key, m) == RoundState(p, crowd, key, g, x + 1)
  {
    RoundTimes(p, g);
    MulMonotone(0, g, crowd);
    assert g == 0 ==> g * crowd == 0;
  }

  /** How many failures there are from move `x` of round `g` on. */
  function StillToFail(p: Params, crowd: nat, g: nat, x: nat): int
    requires p.Valid()
  {
    if g > p.window / p.lockout then 0
    else (p.window / p.lockout - g) * crowd + if x < crowd then crowd else 2 * crowd - x
  }

  lemma NextRound(p: Params, crowd: nat, key: string, g: nat)
    requires p.Valid() && crowd > 0 && g <= p.window / p.lockout
    ensures RoundState(p, crowd, key, g, 2 * crowd) == RoundState(p, crowd, key, g + 1, 0)
    ensures StillToFail(p, crowd, g, 2 * crowd) == StillToFail(p, crowd, g + 1, 0)
  {
    var last := p.window / p.lockout;
    assert (g + 1) * crowd == g * crowd + crowd && (last - g) * crowd == (last - (g + 1)) * crowd + crowd;
  }

  lemma RoundMove(p: Params, crowd: nat, key: string, g: nat, x: nat, now: int)
    requires p.Valid() && crowd > 0 && g <= p.window / p.lockout && x < 2 * crowd && now <= g * p.lockout
    ensures var ms, rest, t := Rounds(p, crowd, g, x), Rounds(p, crowd, g, x + 1), g * p.lockout;
            && (Flows(p, RoundState(p, crowd, key, g, x), ms, key, crowd, now)
                <==> Flows(p, RoundState(p, crowd, key, g, x + 1), rest, key, crowd, t))
            && LastAt(ms, now) == LastAt(rest, t)
            && Wrongs(ms) - StillToFail(p, crowd, g, x) == Wrongs(rest) - StillToFail(p, crowd, g, x + 1)
  {
    RoundStep(p, crowd, key, g, x);
    FirstMove(p, RoundState(p, crowd, key, g, x), key, crowd, now,
              At(if x < crowd then Enter else Wrong, g * p.lockout), Rounds(p, crowd, g, x + 1));
  }

  lemma {:induction false} RoundsFlow(p: Params, crowd: nat, key: string, g: nat, x: nat, now: int)
    requires p.Valid() && crowd > 0 && g <= p.window / p.lockout + 1 && x <= 2 * crowd
    requires now <= g * p.lockout && now <= p.window
    ensures var ms := Rounds(p, crowd, g, x);
            && Flows(p, RoundState(p, crowd, key, g, x), ms, key, crowd, now) && LastAt(ms, now) <= p.window
            && Wrongs(ms) == StillToFail(p, crowd, g, x)
    decreases p.window / p.lockout + 1 - g, 2 * crowd - x
  {
    if g <= p.window / p.lockout {
      RoundTimes(p, g);
      if x < 2 * crowd {
        RoundsFlow(p, crowd, key, g, x + 1, g * p.lockout);
        RoundMove(p, crowd, key, g, x, now);
      } else {
        NextRound(p, crowd, key, g);
        RoundsFlow(p, crowd, key, g + 1, 0, now);
      }
    }
  }

  lemma OneSingle(p: Params, f: Flow, key: string, crowd: nat, i: nat, rest: seq<Timestamped>)
    requires p.Valid() && i + 1 < p.max && f.underWay < crowd && f.e == Held(key, i, 0)
    ensures var ms, f' := [At(Enter, 0), At(Wrong, 0)] + rest, f.(e := Held(key, i + 1, 0));
            && (Flows(p, f, ms, key, crowd, 0) <==> Flows(p, f', rest, key, crowd, 0))
            && LastAt(ms, 0) == LastAt(rest, 0) && Wrongs(ms) == 1 + Wrongs(rest)
            && Flowed(p, f, key, ms) == Flowed(p, f', key, rest)
  {
    var f1 := Moved(p, f, key, At(Enter, 0));
    assert f1 == f.(underWay := f.underWay + 1) && Moved(p, f1, key, At(Wrong, 0)) == f.(e := Held(key, i + 1, 0));
    FirstMove(p, f1, key, crowd, 0, At(Wrong, 0), rest);
    FirstMove(p, f, key, crowd, 0, At(Enter, 0), [At(Wrong, 0)] + rest);
    assert [At(Enter, 0), At(Wrong, 0)] + rest == [At(Enter, 0)] + ([At(Wrong, 0)] + rest);
  }

  lemma {:induction false} SinglesFlow(p: Params, f: Flow, key: string, crowd: nat, i: nat, n: nat,
                                       tail: seq<Timestamped>)
    requires p.Valid() && i + n < p.max && f.underWay < crowd && f.e == Held(key, i, 0)
    requires Flows(p, f.(e := Held(key, i + n, 0)), tail, key, crowd, 0)
    ensures var ms := Singles(n, tail);
            && Flows(p, f, ms, key, crowd, 0) && LastAt(ms, 0) == LastAt(tail, 0) && Wrongs(ms) == n + Wrongs(tail)
            && Flowed(p, f, key, ms) == Flowed(p, f.(e := Held(key, i + n, 0)), key, tail)
    decreases n
  {
    if n > 0 {
      SinglesFlow(p, f.(e := Held(key, i + 1, 0)), key, crowd, i + 1, n - 1, tail);
      OneSingle(p, f, key, crowd, i, Singles(n - 1, tail));
    }
  }

  /** The bound for one window cannot be lowered, for any parameters and any number of requests that
      may be under way at a time. */
  lemma WindowBoundAttained(p: Params, key: string, crowd: nat) returns (ms: seq<Timestamped>)
    requires p.Valid() && crowd > 0
    ensures Flows(p, Flow(map[], 0), ms, key, crowd, 0) && LastAt(ms, 0) <= p.window
    ensures Wrongs(ms) == p.max - 1 + (p.window / p.lockout + 1) * crowd
  {
    var tail := Rounds(p, crowd, 0, 0);
    ms := Singles(p.max - 1, tail);
    DivBound(0, p.window, p.lockout);
    assert 0 * crowd == 0 && 0 * p.lockout == 0;
    RoundsFlow(p, crowd, key, 0, 0, 0);
    SinglesFlow(p, Flow(map[], 0), key, crowd, 0, p.max - 1, tail);
    var last := p.window / p.lockout;
    assert (last - 0) * crowd + crowd == (last + 1) * crowd;
  }

  /** Two requests are enough to lose a lock: one is still checking its password while others lock the
      key, and fails once the window is over. Its failure opens a new window, and the key is free. */
  lemma LockLost(p: Params, key: string) returns (ms: seq<Timestamped>, last: Timestamped)
    requires p.Valid() && p.max > 1 && p.lockout > 1
    ensures Flows(p, Flow(map[], 0), ms, key, 2, 0) && LastAt(ms, 0) <= last.now
    ensures var f := Flowed(p, Flow(map[], 0), key, ms);
            && LockedAt(f.e, key, last.now) && last.move == Wrong && CanMove(f, key, 2, last)
            && AllowedAnswer(Moved(p, f, key, last).e, key, last.now).0
  {
    var tail := [At(Enter, p.window), At(Wrong, p.window)];
    var singles := Singles(p.max - 1, tail);
    ms, last := [At(Enter, 0)] + singles, At(Wrong, p.window + 1);
    var f1, f2 := Flow(map[], 1), Flow(Held(key, p.max - 1, 0), 1);
    FirstMove(p, f2, key, 2, 0, tail[0], [tail[1]]);
    FirstMove(p, Moved(p, f2, key, tail[0]), key, 2, p.window, tail[1], []);
    assert tail == [tail[0]] + [tail[1]] && [tail[1]] == [tail[1]] + [];
    SinglesFlow(p, f1, key, 2, 0, p.max - 1, tail);
    FirstMove(p, Flow(map[], 0), key, 2, 0, At(Enter, 0), singles);
    assert Moved(p, Flow(map[], 0), key, At(Enter, 0)) == f1;
  }
}
