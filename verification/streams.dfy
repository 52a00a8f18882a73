/** The reconciler of TCP listeners: it keeps what is running in line with the enabled rules. */
module Streams {
  import opened Prelude
  import opened Text

  datatype StreamRule = StreamRule(listen: string, target: string, tls: bool, sniHost: string, timeoutSec: int, enabled: bool)

  function RuleKey(r: StreamRule): string { Lower(Trim(r.listen)) }

  predicate Usable(r: StreamRule) { r.enabled && Trim(r.listen) != "" && Trim(r.target) != "" }

  /** The rule that should be listening under each key: the last usable one. */
  function Wanted(rules: seq<StreamRule>): map<string, StreamRule> {
    if rules == [] then map[]
    else
      var before, r := Wanted(rules[..|rules| - 1]), rules[|rules| - 1];
      if Usable(r) then before[RuleKey(r) := r] else before
  }

  /** How starting a listener turns out during one call; Some is the error. */
  type Outcome = StreamRule -> Option<string>

  /** What a manager shows: the rules its listeners were started with, and the recorded errors. */
  datatype View = View(running: map<string, StreamRule>, errs: map<string, string>)

  const IDLE := View(map[], map[])

  function Applied(v: View, rules: seq<StreamRule>, start: Outcome): View { Reconciled(v, Wanted(rules), start) }

  function Reconciled(v: View, wanted: map<string, StreamRule>, start: Outcome): View {
    View(map k | k in wanted && (k in v.running || start(wanted[k]).None?) ::
           if k in v.running then v.running[k] else wanted[k],
         ErrorsAfter(v.running.Keys, v.errs, wanted, start))
  }

  /** A key that had to be started has the outcome on record; the others keep what they had. */
  function ErrorsAfter(running: set<string>, errs: map<string, string>, wanted: map<string, StreamRule>,
                       start: Outcome): map<string, string> {
    map k | k in errs.Keys + wanted.Keys
            && (if k in wanted && k !in running then start(wanted[k]).Some? else k in errs) ::
      if k in wanted && k !in running then start(wanted[k]).value else errs[k]
  }

  lemma ErrorsStep(running: set<string>, errs: map<string, string>, done: map<string, StreamRule>,
                   k: string, r: StreamRule, start: Outcome)
    requires k !in done
    ensures ErrorsAfter(running, errs, done[k := r], start) ==
              var before := ErrorsAfter(running, errs, done, start);
              if k in running then before else if start(r).Some? then before[k := start(r).value] else before - {k}
  {
  }

  class Listener {
    const rule: StreamRule
    var stopped: bool

    constructor (rule: StreamRule)
      ensures this.rule == rule && !stopped
    {
      this.rule, stopped := rule, false;
    }

    method Stop()
      modifies this
      ensures stopped
    {
      stopped := true;
    }
  }

  function RulesOf(running: map<string, Listener>): map<string, StreamRule> { map k | k in running :: running[k].rule }

  lemma RulesReconciled(before: map<string, Listener>, after: map<string, Listener>, errs: map<string, string>,
                        wanted: map<string, StreamRule>, start: Outcome)
    requires after.Keys == set k | k in wanted && (k in before || start(wanted[k]).None?)
    requires forall k :: k in after ==> if k in before then after[k] == before[k] else after[k].rule == wanted[k]
    ensures View(RulesOf(after), ErrorsAfter(before.Keys, errs, wanted, start))
         == Reconciled(View(RulesOf(before), errs), wanted, start)
  {
    var v := View(RulesOf(before), errs);
    assert v.running.Keys == before.Keys;
    assert RulesOf(after) == Reconciled(v, wanted, start).running;
  }

  class Manager {
    var running: map<string, Listener>
    var lastErrs: map<string, string>

    ghost var cells: set<Listener>

    /** Nothing that counts as running was ever stopped. */
    ghost predicate Valid()
      reads this, cells
    {
      && (forall k :: k in running ==> running[k] in cells && !running[k].stopped)
      && forall j, k :: j in running && k in running && j != k ==> running[j] != running[k]
    }

    ghost function Now(): View
      reads this
    {
      View(RulesOf(running), lastErrs)
    }

    constructor ()
      ensures Valid() && Now() == IDLE && fresh(cells)
    {
      running, lastErrs, cells := map[], map[], {};
    }

    /** Stops every listener whose key is not in `keep`. */
    method StopOthers(keep: set<string>)
      requires Valid()
      modifies this, cells
      ensures Valid() && cells == old(cells) && lastErrs == old(lastErrs)
      ensures running.Keys == old(running).Keys * keep
      ensures forall k :: k in running ==> running[k] == old(running)[k]
      ensures forall k :: k in old(running) && k !in keep ==> old(running)[k].stopped
    {
      var todo := running.Keys;
      while todo != {}
        invariant Valid() && cells == old(cells) && lastErrs == old(lastErrs)
        invariant todo <= running.Keys <= old(running).Keys
        invariant forall k :: k in running ==> running[k] == old(running)[k]
        invariant forall k :: k in old(running) && k !in todo ==>
          if k in keep then k in running else k !in running && old(running)[k].stopped
        decreases todo
      {
        var k :| k in todo;
        todo := todo - {k};
        if k !in keep {
          running[k].Stop();
          running := running - {k};
        }
      }
    }

    method Start(k: string, r: StreamRule, start: Outcome)
      requires Valid()
      modifies this
      ensures Valid() && fresh(cells - old(cells)) && cells >= old(cells)
      ensures running.Keys == old(running).Keys + if k in old(running) || start(r).None? then {k} else {}
      ensures forall j :: j in old(running) ==> running[j] == old(running)[j]
      ensures k !in old(running) && start(r).None? ==> fresh(running[k]) && running[k].rule == r
      ensures lastErrs == if k in old(running) then old(lastErrs)
                          else if start(r).Some? then old(lastErrs)[k := start(r).value]
                          else old(lastErrs) - {k}
    {
      if k in running {
        return;
      }
      var err := start(r);
      if err.Some? {
        lastErrs := lastErrs[k := err.value];
        return;
      }
      var l := new Listener(r);
      running, cells := running[k := l], cells + {l};
      lastErrs := lastErrs - {k};
    }

    method Apply(rules: seq<StreamRule>, start: Outcome)
      requires Valid()
      modifies this, cells
      ensures Valid() && fresh(cells - old(cells))
      ensures Now() == Applied(old(Now()), rules, start)
      // the listeners that stay are the same objects, and those that go are stopped
      ensures forall k :: k in running && k in old(running) ==> running[k] == old(running)[k]
      ensures forall k :: k in running && k !in old(running) ==> fresh(running[k])
      ensures forall k :: k in old(running) && k !in running ==> old(running)[k].stopped
    {
      var wanted := map[];
      for i := 0 to |rules|
        invariant wanted == Wanted(rules[..i])
      {
        assert rules[..i + 1][..i] == rules[..i];
        var r := rules[i];
        if !r.enabled || Trim(r.listen) == "" || Trim(r.target) == "" {
          continue;
        }
        wanted := wanted[RuleKey(r) := r];
      }
      assert rules[..|rules|] == rules;
      ghost var before, errs := running, lastErrs;
      Reconcile(wanted, start);
      RulesReconciled(before, running, errs, wanted, start);
    }

    method Reconcile(wanted: map<string, StreamRule>, start: Outcome)
      requires Valid()
      modifies this, cells
      ensures Valid() && fresh(cells - old(cells))
      ensures running.Keys == set k | k in wanted && (k in old(running) || start(wanted[k]).None?)
      ensures lastErrs == ErrorsAfter(old(running).Keys, old(lastErrs), wanted, start)
      ensures forall k :: k in running && k in old(running) ==> running[k] == old(running)[k]
      ensures forall k :: k in running && k !in old(running) ==> fresh(running[k]) && running[k].rule == wanted[k]
      ensures forall k :: k in old(running) && k !in running ==> old(running)[k].stopped
    {
      StopOthers(wanted.Keys);
      StartAll(wanted, start);
    }

    method StartAll(wanted: map<string, StreamRule>, start: Outcome)
      requires Valid()
      modifies this
      ensures Valid() && fresh(cells - old(cells)) && cells >= old(cells)
      ensures forall k :: k in old(running) ==> k in running && running[k] == old(running)[k]
      ensures forall k :: k in running && k !in old(running) ==>
        k in wanted && start(wanted[k]).None? && fresh(running[k]) && running[k].rule == wanted[k]
      ensures forall k :: k in wanted && start(wanted[k]).None? ==> k in running
      ensures lastErrs == ErrorsAfter(old(running).Keys, old(lastErrs), wanted, start)
    {
      ghost var was, errs := running, lastErrs;
      ghost var done: map<string, StreamRule> := map[];
      var todo := wanted.Keys;
      while todo != {}
        invariant todo <= wanted.Keys && done.Keys == wanted.Keys - todo
        invariant forall k :: k in done ==> done[k] == wanted[k]
        invariant Valid() && fresh(cells - old(cells)) && cells >= old(cells)
        invariant forall k :: k in was ==> k in running && running[k] == was[k]
        invariant forall k :: k in running && k !in was ==>
          k in done && start(wanted[k]).None? && fresh(running[k]) && running[k].rule == wanted[k]
        invariant forall k :: k in done && start(wanted[k]).None? ==> k in running
        invariant lastErrs == ErrorsAfter(was.Keys, errs, done, start)
        decreases todo
      {
        var k :| k in todo;
        todo := todo - {k};
        assert k in running <==> k in was;
        ErrorsStep(was.Keys, errs, done, k, wanted[k], start);
        Start(k, wanted[k], start);
        done := done[k := wanted[k]];
      }
      assert done == wanted;
    }

    method Close()
      requires Valid()
      modifies this, cells
      ensures Valid() && running == map[] && lastErrs == old(lastErrs)
      ensures forall k :: k in old(running) ==> old(running)[k].stopped
    {
      StopOthers({});
    }
  }

  // ----- any series of calls

  datatype Call = Apply(rules: seq<StreamRule>, start: Outcome) | Close

  function After(calls: seq<Call>): View {
    if calls == [] then IDLE
    else
      var v := After(calls[..|calls| - 1]);
      match calls[|calls| - 1]
      case Apply(rules, start) => Applied(v, rules, start)
      case Close => v.(running := map[])
  }

  /** No key is both running and in error, and every listener serves a rule with its own key. */
  lemma {:induction false} RunningHasNoError(calls: seq<Call>)
    ensures var v := After(calls);
            v.running.Keys !! v.errs.Keys && forall k :: k in v.running ==> RuleKey(v.running[k]) == k
  {
    if calls != [] {
      var v := After(calls[..|calls| - 1]);
      RunningHasNoError(calls[..|calls| - 1]);
      match calls[|calls| - 1]
      case Apply(rules, start) =>
        WantedKeys(rules);
        assert After(calls) == Applied(v, rules, start);
      case Close =>
    }
  }

  lemma {:induction false} WantedKeys(rules: seq<StreamRule>)
    ensures forall k :: k in Wanted(rules) ==> RuleKey(Wanted(rules)[k]) == k && Usable(Wanted(rules)[k])
    ensures forall r :: r in rules && Usable(r) ==> RuleKey(r) in Wanted(rules)
  {
    if rules != [] {
      WantedKeys(rules[..|rules| - 1]);
      forall r | r in rules && Usable(r) ensures RuleKey(r) in Wanted(rules) {
        if r != rules[|rules| - 1] { assert r in rules[..|rules| - 1]; }
      }
    }
  }

  lemma {:induction false} WantedFrom(rules: seq<StreamRule>, k: string)
    ensures k in Wanted(rules) <==> exists i :: 0 <= i < |rules| && Usable(rules[i]) && RuleKey(rules[i]) == k
  {
    if rules != [] {
      var n := |rules| - 1;
      var front := rules[..n];
      WantedFrom(front, k);
      if i :| 0 <= i < |rules| && Usable(rules[i]) && RuleKey(rules[i]) == k {
        assert i < n ==> front[i] == rules[i];
      }
      if i :| 0 <= i < |front| && Usable(front[i]) && RuleKey(front[i]) == k {
        assert rules[i] == front[i];
      }
      assert rules[n] == rules[|rules| - 1];
    }
  }

  lemma {:induction false} WantedLast(rules: seq<StreamRule>, k: string) returns (i: nat)
    requires k in Wanted(rules)
    ensures i < |rules| && Wanted(rules)[k] == rules[i]
    ensures forall j :: i < j < |rules| && Usable(rules[j]) ==> RuleKey(rules[j]) != k
  {
    var n := |rules| - 1;
    if Usable(rules[n]) && RuleKey(rules[n]) == k {
      i := n;
    } else {
      i := WantedLast(rules[..n], k);
      forall j | i < j < |rules| && Usable(rules[j]) ensures RuleKey(rules[j]) != k {
        if j < n { assert rules[..n][j] == rules[j]; }
      }
    }
  }

  /** A key is to be listened on exactly when an enabled rule with an address and a target has it, and
      the last such rule counts. Keys are addresses without the blanks around them, in small letters. */
  lemma WantedExact(rules: seq<StreamRule>, k: string)
    ensures k in Wanted(rules) <==>
            exists i :: 0 <= i < |rules| && rules[i].enabled && Trim(rules[i].listen) != ""
                        && Trim(rules[i].target) != "" && Lower(Trim(rules[i].listen)) == k
    ensures k in Wanted(rules) ==>
            exists i :: 0 <= i < |rules| && Wanted(rules)[k] == rules[i]
                        && forall j :: i < j < |rules| && Usable(rules[j]) ==> RuleKey(rules[j]) != k
  {
    WantedFrom(rules, k);
    if k in Wanted(rules) {
      var i := WantedLast(rules, k);
    }
  }

  /** After an Apply, the state of every usable rule is known: it runs, or its error is on record. */
  lemma ApplySettles(calls: seq<Call>, rules: seq<StreamRule>, start: Outcome)
    ensures var v := After(calls + [Apply(rules, start)]);
            && v.running.Keys <= Wanted(rules).Keys
            && forall r :: r in rules && Usable(r) ==> (RuleKey(r) in v.running <==> RuleKey(r) !in v.errs)
  {
    var more := calls + [Apply(rules, start)];
    assert more[..|more| - 1] == calls;
    RunningHasNoError(more);
    WantedKeys(rules);
  }

  /** What the panel shows for one configured rule. */
  datatype Status = Status(running: bool, error: string)

  function StatusOf(v: View, r: StreamRule): Status {
    if !r.enabled then Status(false, "")
    else if RuleKey(r) in v.running then Status(true, "")
    else Status(false, if RuleKey(r) in v.errs then v.errs[RuleKey(r)] else "")
  }

  /** After an Apply, a usable rule shows as running, or with the error of this very Apply. An enabled
      rule that no usable rule shares its key with is not running, and shows whatever error was left. */
  lemma StatusAfterApply(calls: seq<Call>, rules: seq<StreamRule>, start: Outcome, r: StreamRule)
    requires r in rules && r.enabled
    ensures var v, key, wanted := After(calls), RuleKey(r), Wanted(rules);
            var status := StatusOf(After(calls + [Apply(rules, start)]), r);
            if key in wanted then
              status == if key in v.running || start(wanted[key]).None? then Status(true, "")
                        else Status(false, start(wanted[key]).value)
            else !Usable(r) && status == Status(false, if key in v.errs then v.errs[key] else "")
  {
    var more := calls + [Apply(rules, start)];
    assert more[..|more| - 1] == calls;
    WantedKeys(rules);
  }

  /** A rule that is switched off shows neither. */
  lemma DisabledShowsNothing(v: View, r: StreamRule)
    ensures !r.enabled ==> StatusOf(v, r) == Status(false, "")
    ensures r.enabled ==> StatusOf(v, r).running == (Lower(Trim(r.listen)) in v.running)
  {
  }

  /** Applying the same rules again stops nothing, starts nothing that runs, and tries exactly what
      failed before once more. */
  lemma ReapplyOnlyRetries(v: View, rules: seq<StreamRule>, start: Outcome, again: Outcome)
    ensures var once := Applied(v, rules, start); var twice := Applied(once, rules, again);
            && (forall k :: k in once.running ==> k in twice.running && twice.running[k] == once.running[k])
            && (forall k :: k in twice.running && k !in once.running ==>
                  k in Wanted(rules) && start(Wanted(rules)[k]).Some? && again(Wanted(rules)[k]).None?)
            && ((forall r :: again(r).Some? <==> start(r).Some?) ==> twice.running == once.running)
            && Applied(once, rules, start) == once
  {
    var once := Applied(v, rules, start);
    var twice := Applied(once, rules, again);
    if forall r :: again(r).Some? <==> start(r).Some? {
      assert twice.running.Keys == once.running.Keys;
    }
    assert Applied(once, rules, start).running == once.running;
    assert Applied(once, rules, start).errs == once.errs;
  }
}
