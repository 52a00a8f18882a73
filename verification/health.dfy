/** The health checker: one status per monitored target, driven by probe results. */
module Health {
  import opened Prelude

  datatype Counts = Counts(consecFails: nat, checkCount: nat, failCount: nat, lastErr: string)

  /** What the checker knows about one target. */
  datatype Report = Report(healthy: bool, counts: Counts)

  const UNKNOWN := Report(true, Counts(0, 0, 0, ""))

  // ----- specification functions on the reports

  function AfterSetTargets(v: map<string, Report>, targets: seq<string>): map<string, Report> {
    map t | t in targets && t != "" :: if t in v then v[t] else UNKNOWN
  }

  function Passed(c: Counts): Counts { Counts(0, c.checkCount + 1, c.failCount, "") }

  function Failed(c: Counts, errMsg: string): Counts {
    Counts(c.consecFails + 1, c.checkCount + 1, c.failCount + 1, errMsg)
  }

  function Probed(failures: int, r: Report, ok: bool, errMsg: string): Report {
    if ok then Report(true, Passed(r.counts))
    else Report(r.healthy && r.counts.consecFails + 1 < failures, Failed(r.counts, errMsg))
  }

  function AfterRecord(failures: int, v: map<string, Report>, t: string, ok: bool, errMsg: string): map<string, Report> {
    if t in v then v[t := Probed(failures, v[t], ok, errMsg)] else v
  }

  function AfterMarkAll(v: map<string, Report>): map<string, Report> {
    map t | t in v :: Report(true, v[t].counts.(consecFails := 0, lastErr := ""))
  }

  // ----- the checker

  /** The verdict is not here: it lives in the checker's `healthy` map. */
  class Status {
    const target: string
    var consecFails: nat
    var checkCount: nat
    var failCount: nat
    var lastErr: string

    constructor (target: string)
      ensures this.target == target && Value() == UNKNOWN.counts
    {
      this.target, consecFails, checkCount, failCount, lastErr := target, 0, 0, 0, "";
    }

    function Value(): Counts
      reads this
    {
      Counts(consecFails, checkCount, failCount, lastErr)
    }

    method Pass()
      modifies this
      ensures Value() == Passed(old(Value()))
    {
      checkCount, consecFails, lastErr := checkCount + 1, 0, "";
    }

    method Fail(errMsg: string)
      modifies this
      ensures Value() == Failed(old(Value()), errMsg)
    {
      checkCount, consecFails, failCount, lastErr := checkCount + 1, consecFails + 1, failCount + 1, errMsg;
    }

    method Forgive()
      modifies this
      ensures Value() == old(Value()).(consecFails := 0, lastErr := "")
    {
      consecFails, lastErr := 0, "";
    }
  }

  class Checker {
    const failures: int
    var targets: map<string, Status>
    var healthy: map<string, bool>

    ghost var view: map<string, Report>
    ghost var cells: set<Status>

    ghost predicate Valid()
      reads this, cells
    {
      && failures > 0
      && targets.Keys == healthy.Keys == view.Keys
      && (forall t :: t in targets ==> targets[t] in cells && targets[t].target == t)
      && (forall t :: t in targets ==> view[t] == Report(healthy[t], targets[t].Value()))
    }

    constructor (failures: int)
      ensures Valid() && view == map[] && fresh(cells)
      ensures this.failures == if failures <= 0 then 3 else failures
    {
      this.failures := if failures <= 0 then 3 else failures;
      targets, healthy, view, cells := map[], map[], map[], {};
    }

    /** The maps for a new list of targets; `made` are the status objects of the new ones. */
    method Carry(list: seq<string>) returns (next: map<string, Status>, nextHealthy: map<string, bool>,
                                             ghost made: set<Status>)
      requires Valid()
      ensures fresh(made) && next.Keys == nextHealthy.Keys == AfterSetTargets(view, list).Keys
      ensures forall t :: t in next ==> next[t].target == t && next[t] in cells + made
      ensures forall t :: t in next ==> AfterSetTargets(view, list)[t] == Report(nextHealthy[t], next[t].Value())
      ensures forall t :: t in next && t in targets ==> next[t] == targets[t]
    {
      next, nextHealthy, made := map[], map[], {};
      for i := 0 to |list|
        invariant fresh(made) && next.Keys == nextHealthy.Keys
        invariant forall j :: 0 <= j < i && list[j] != "" ==> list[j] in next
        invariant forall t :: t in next ==> t in list && t != ""
        invariant forall t :: t in next ==> next[t].target == t
        invariant forall t :: t in next && t in targets ==> next[t] == targets[t] && nextHealthy[t] == healthy[t]
        invariant forall t :: t in next && t !in targets ==>
          next[t] in made && next[t].Value() == UNKNOWN.counts && nextHealthy[t]
      {
        var t := list[i];
        if t == "" {
          continue;
        }
        if t in targets {
          next, nextHealthy := next[t := targets[t]], nextHealthy[t := healthy[t]];
        } else {
          var s := new Status(t);
          made := made + {s};
          next, nextHealthy := next[t := s], nextHealthy[t := true];
        }
      }
    }

    /** New maps take the place of the old ones. */
    method Install(next: map<string, Status>, nextHealthy: map<string, bool>, ghost reports: map<string, Report>,
                   ghost owned: set<Status>)
      requires failures > 0 && next.Keys == nextHealthy.Keys == reports.Keys
      requires forall t :: t in next ==> next[t] in owned && next[t].target == t
      requires forall t :: t in next ==> reports[t] == Report(nextHealthy[t], next[t].Value())
      modifies this
      ensures Valid() && targets == next && view == reports && cells == owned
    {
      targets, healthy, view, cells := next, nextHealthy, reports, owned;
    }

    /** A target that stays keeps its status object, and with it everything known about it. */
    method SetTargets(list: seq<string>)
      requires Valid()
      modifies this
      ensures Valid() && fresh(cells - old(cells))
      ensures view == AfterSetTargets(old(view), list)
      ensures forall t :: t in targets && t in old(targets) ==> targets[t] == old(targets[t])
    {
      ghost var reports := AfterSetTargets(view, list);
      var next, nextHealthy, made := Carry(list);
      Install(next, nextHealthy, reports, cells + made);
    }

    method IsHealthy(target: string) returns (h: bool)
      requires Valid()
      ensures h <==> (target in view ==> view[target].healthy)
    {
      if target !in healthy {
        return true;
      }
      return healthy[target];
    }

    method RecordPass(t: string)
      requires Valid() && t in targets
      modifies this, cells
      ensures Valid() && cells == old(cells) && targets == old(targets)
      ensures forall errMsg :: view == AfterRecord(failures, old(view), t, true, errMsg)
    {
      targets[t].Pass();
      healthy := healthy[t := true];
      view := AfterRecord(failures, view, t, true, "");
    }

    method RecordFail(t: string, errMsg: string)
      requires Valid() && t in targets
      modifies this, cells
      ensures Valid() && cells == old(cells) && targets == old(targets)
      ensures view == AfterRecord(failures, old(view), t, false, errMsg)
    {
      targets[t].Fail(errMsg);
      if targets[t].consecFails >= failures {
        healthy := healthy[t := false];
      }
      view := AfterRecord(failures, view, t, false, errMsg);
    }

    /** `changed` is the call to onChange, if there is one. */
    method Record(target: string, ok: bool, errMsg: string) returns (changed: Option<bool>)
      requires Valid()
      modifies this, cells
      ensures Valid() && cells == old(cells) && targets == old(targets)
      ensures view == AfterRecord(failures, old(view), target, ok, errMsg)
      ensures changed == if target in view && view[target].healthy != old(view)[target].healthy
                         then Some(view[target].healthy) else None
    {
      if target !in targets {
        return None;
      }
      var prevHealthy := healthy[target];
      if ok {
        RecordPass(target);
      } else {
        RecordFail(target, errMsg);
      }
      return if prevHealthy != healthy[target] then Some(healthy[target]) else None;
    }

    method MarkHealthy(t: string)
      requires Valid() && t in view
      modifies this, cells
      ensures Valid() && cells == old(cells) && targets == old(targets)
      ensures view == old(view)[t := AfterMarkAll(old(view))[t]]
    {
      healthy := healthy[t := true];
      targets[t].Forgive();
      view := view[t := AfterMarkAll(view)[t]];
    }

    method MarkAllHealthy()
      requires Valid()
      modifies this, cells
      ensures Valid() && cells == old(cells) && targets == old(targets)
      ensures view == AfterMarkAll(old(view))
    {
      var todo := healthy.Keys;
      while todo != {}
        invariant Valid() && cells == old(cells) && targets == old(targets)
        invariant todo <= targets.Keys
        invariant forall t :: t in todo ==> view[t] == old(view)[t]
        invariant forall t :: t in view && t !in todo ==> view[t] == AfterMarkAll(old(view))[t]
        decreases todo
      {
        var t :| t in todo;
        todo := todo - {t};
        MarkHealthy(t);
      }
    }
  }

  // ----- what the reports say about the probes

  datatype Event = SetTargets(targets: seq<string>) | Record(target: string, ok: bool, errMsg: string) | MarkAll

  function Reports(failures: int, events: seq<Event>): map<string, Report> {
    if events == [] then map[]
    else
      var before := Reports(failures, events[..|events| - 1]);
      match events[|events| - 1]
      case SetTargets(ts) => AfterSetTargets(before, ts)
      case Record(t, ok, errMsg) => AfterRecord(failures, before, t, ok, errMsg)
      case MarkAll => AfterMarkAll(before)
  }

  /** The results of the probes of `t` since it was registered or last marked healthy. */
  function Probes(events: seq<Event>, t: string): Option<seq<bool>> {
    if events == [] then None
    else
      var before := Probes(events[..|events| - 1], t);
      match events[|events| - 1]
      case SetTargets(ts) => if t !in ts || t == "" then None else if before.Some? then before else Some([])
      case Record(t', ok, _) => if before.Some? && t' == t then Some(before.value + [ok]) else before
      case MarkAll => if before.Some? then Some([]) else None
  }

  /** The probes of `t` since it was registered, with their errors. */
  function AllProbes(events: seq<Event>, t: string): seq<(bool, string)> {
    if events == [] then []
    else
      var before := AllProbes(events[..|events| - 1], t);
      match events[|events| - 1]
      case SetTargets(ts) => if t !in ts || t == "" then [] else before
      case Record(t', ok, errMsg) =>
        if t' == t && Probes(events[..|events| - 1], t).Some? then before + [(ok, errMsg)] else before
      case MarkAll => before
  }

  function Fails(probes: seq<(bool, string)>): nat {
    if probes == [] then 0 else Fails(probes[..|probes| - 1]) + if probes[|probes| - 1].0 then 0 else 1
  }

  /** What the panel shows: how many probes there were and how many of them failed, which no amnesty
      changes, and the error of the last one, which an amnesty clears. */
  lemma {:induction false} CountsAreHistory(failures: int, events: seq<Event>, t: string)
    requires failures > 0
    ensures var all := AllProbes(events, t);
            if t in Reports(failures, events) then
              var counts := Reports(failures, events)[t].counts;
              && Probes(events, t).Some? && |Probes(events, t).value| <= |all|
              && counts.checkCount == |all| && counts.failCount == Fails(all)
              && counts.lastErr == (if Probes(events, t).value == [] || all[|all| - 1].0 then "" else all[|all| - 1].1)
            else Probes(events, t).None? && all == []
  {
    if events != [] {
      CountsAreHistory(failures, events[..|events| - 1], t);
      var before := AllProbes(events[..|events| - 1], t);
      var all := AllProbes(events, t);
      if |all| > |before| { assert all[..|before|] == before; }
    }
  }

  /** The last `n` probes exist and all failed. */
  ghost predicate LastFailed(probes: seq<bool>, n: int) {
    n <= |probes| && forall i :: |probes| - n <= i < |probes| ==> 0 <= i && !probes[i]
  }

  lemma ProbeExtends(probes: seq<bool>, ok: bool, n: int)
    requires n >= 0
    ensures LastFailed(probes + [ok], n + 1) <==> !ok && LastFailed(probes, n)
  {
    var more := probes + [ok];
    assert more[|probes|] == ok;
    if LastFailed(more, n + 1) {
      forall i | |probes| - n <= i < |probes| ensures 0 <= i && !probes[i] { assert more[i] == probes[i]; }
    }
  }

  /** In every run, the checker's verdict on a target is a function of its latest probes alone. */
  lemma {:induction false} VerdictIsRecentProbes(failures: int, events: seq<Event>, t: string)
    requires failures > 0
    ensures t in Reports(failures, events) <==> Probes(events, t).Some?
    ensures t in Reports(failures, events) ==>
              var r, probes := Reports(failures, events)[t], Probes(events, t).value;
              && (!r.healthy <==> LastFailed(probes, failures))
              && LastFailed(probes, r.counts.consecFails) && !LastFailed(probes, r.counts.consecFails + 1)
  {
    if events != [] {
      var front := events[..|events| - 1];
      VerdictIsRecentProbes(failures, front, t);
      var last := events[|events| - 1];
      if last.Record? && last.target == t && t in Reports(failures, front) {
        var r, probes := Reports(failures, front)[t], Probes(front, t).value;
        ProbeExtends(probes, last.ok, r.counts.consecFails);
        ProbeExtends(probes, last.ok, r.counts.consecFails + 1);
        FewerFailed(probes, failures, r.counts.consecFails);
        FewerFailed(probes + [last.ok], failures, Reports(failures, events)[t].counts.consecFails);
      }
    }
  }

  /** With exactly `run` trailing failures, the last `n` failed exactly when `n` is at most `run`. */
  lemma FewerFailed(probes: seq<bool>, n: int, run: nat)
    requires n >= 0
    ensures LastFailed(probes, run) && n <= run ==> LastFailed(probes, n)
    ensures !LastFailed(probes, run + 1) && n > run ==> !LastFailed(probes, n)
  {
  }

  /** onChange reports a probe exactly when the verdict over the recorded probes flips with it. */
  lemma ChangeIsFlip(failures: int, events: seq<Event>, t: string, ok: bool, errMsg: string)
    requires failures > 0 && Probes(events, t).Some?
    ensures var after := Reports(failures, events + [Record(t, ok, errMsg)]);
            t in Reports(failures, events) && t in after &&
            (after[t].healthy != Reports(failures, events)[t].healthy <==>
             LastFailed(Probes(events, t).value, failures) != LastFailed(Probes(events, t).value + [ok], failures))
  {
    var more := events + [Record(t, ok, errMsg)];
    assert more[..|more| - 1] == events;
    VerdictIsRecentProbes(failures, events, t);
    VerdictIsRecentProbes(failures, more, t);
  }
}
