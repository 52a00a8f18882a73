/** The configuration store under concurrent Update, ReloadFromBytes and SetBackend calls. Each call is
    a thread that moves in steps; what runs under `mu` is one step, what runs under `saveMu` is not. */
module ConfigStore {
  import opened Prelude
  import opened Sealing

  datatype Phase =
    | Idle
    | Changed                  // memory is changed, saveMu is still to be taken
    | Attaching                // SetBackend: saveMu is held, memory not changed yet
    | Locked                   // saveMu is held, memory is changed and not yet marshalled
    | Marshalled(data: Data)   // saveMu is held, `data` is about to be written
    | Written                  // saveMu is held, the file is renamed into place

  datatype State = State(memory: Settings, disk: Data, lastWriteOk: bool, saver: Option<nat>, phases: seq<Phase>)

  datatype Step =
    | Change(t: nat, to: Settings)         // Update's function, or the configuration Reload decoded
    | Acquire(t: nat)
    | Marshal(t: nat, rnd: Slot -> nat)
    | Write(t: nat, ok: bool)              // the write and the rename, or the error that ends the call
    | Release(t: nat)
    | Attach(t: nat)                       // SetBackend takes saveMu first
    | Install(t: nat, to: Settings)        // and then the backend's configuration
    | Abandon(t: nat)                      // or gives up

  predicate Enabled(s: State, step: Step) {
    step.t < |s.phases| &&
    var ph := s.phases[step.t];
    match step
    case Change(_, _) => ph.Idle?
    case Acquire(_) => ph.Changed? && s.saver.None?
    case Marshal(_, _) => ph.Locked?
    case Write(_, _) => ph.Marshalled?
    case Release(_) => ph.Written?
    case Attach(_) => ph.Idle? && s.saver.None?
    case Install(_, _) => ph.Attaching?
    case Abandon(_) => ph.Attaching?
  }

  function Next(v: Vault, s: State, step: Step): State
    requires Enabled(s, step)
  {
    var t := step.t;
    match step
    case Change(_, to) => s.(memory := to, phases := s.phases[t := Changed])
    case Acquire(_) => s.(saver := Some(t), phases := s.phases[t := Locked])
    case Marshal(_, rnd) => s.(phases := s.phases[t := Marshalled(Json(Sealed(v, s.memory, rnd)))])
    case Write(_, ok) =>
      if ok then s.(disk := s.phases[t].data, lastWriteOk := true, phases := s.phases[t := Written])
      else s.(lastWriteOk := false, saver := None, phases := s.phases[t := Idle])
    case Release(_) => s.(saver := None, phases := s.phases[t := Idle])
    case Attach(_) => s.(saver := Some(t), phases := s.phases[t := Attaching])
    case Install(_, to) => s.(memory := to, phases := s.phases[t := Locked])
    case Abandon(_) => s.(saver := None, phases := s.phases[t := Idle])
  }

  predicate Possible(v: Vault, s: State, steps: seq<Step>)
    decreases |steps|
  {
    steps == [] || (Enabled(s, steps[0]) && Possible(v, Next(v, s, steps[0]), steps[1..]))
  }

  function Exec(v: Vault, s: State, steps: seq<Step>): State
    requires Possible(v, s, steps)
    decreases |steps|
  {
    if steps == [] then s else Exec(v, Next(v, s, steps[0]), steps[1..])
  }

  predicate Quiet(s: State) { forall t :: 0 <= t < |s.phases| ==> s.phases[t].Idle? }

  predicate Saving(ph: Phase) { !ph.Idle? && !ph.Changed? }

  /** A thread that has changed memory and not yet looked at it again. */
  predicate Pending(s: State, t: nat) { t < |s.phases| && (s.phases[t].Changed? || s.phases[t].Locked?) }

  /** `d` is a way of writing down `c`. */
  ghost predicate ImageOf(v: Vault, d: Data, c: Settings) { exists rnd :: d == Json(Sealed(v, c, rnd)) }

  /** saveMu is held by the one thread that is saving. */
  predicate Exclusive(s: State) {
    forall t :: 0 <= t < |s.phases| ==> (Saving(s.phases[t]) <==> s.saver == Some(t))
  }

  /** A difference between memory and what is on disk, or on its way there, is covered by a thread
      that is still to marshal. */
  ghost predicate Covered(v: Vault, s: State) {
    || (exists t :: Pending(s, t))
    || (if s.saver.Some? && s.saver.value < |s.phases| && s.phases[s.saver.value].Marshalled?
        then ImageOf(v, s.phases[s.saver.value].data, s.memory)
        else s.lastWriteOk ==> ImageOf(v, s.disk, s.memory))
  }

  lemma StepCovered(v: Vault, s: State, step: Step)
    requires Exclusive(s) && Covered(v, s) && Enabled(s, step)
    ensures Exclusive(Next(v, s, step)) && Covered(v, Next(v, s, step))
  {
    var s' := Next(v, s, step);
    var t := step.t;
    if step.Change? || step.Acquire? || step.Install? {
      assert Pending(s', t);
    } else {
      if exists u :: Pending(s, u) && u != t {
        var u :| Pending(s, u) && u != t;
        assert Pending(s', u);
      }
    }
  }

  lemma {:induction false} RunCovered(v: Vault, s: State, steps: seq<Step>)
    requires Exclusive(s) && Covered(v, s) && Possible(v, s, steps)
    ensures Exclusive(Exec(v, s, steps)) && Covered(v, Exec(v, s, steps))
    decreases |steps|
  {
    if steps != [] {
      StepCovered(v, s, steps[0]);
      RunCovered(v, Next(v, s, steps[0]), steps[1..]);
    }
  }

  /** However the calls interleave, once all have returned and the latest write worked, the file holds
      the configuration in memory. */
  lemma QuietMeansDurable(v: Vault, s0: State, steps: seq<Step>)
    requires Quiet(s0) && s0.saver.None? && ImageOf(v, s0.disk, s0.memory) && Possible(v, s0, steps)
    requires Quiet(Exec(v, s0, steps)) && Exec(v, s0, steps).lastWriteOk
    ensures ImageOf(v, Exec(v, s0, steps).disk, Exec(v, s0, steps).memory)
  {
    RunCovered(v, s0, steps);
  }

  /** And reading the file back gives that very configuration, exactly when normalize has nothing to
      fill in and no secret in it looks sealed. */
  lemma QuietReadsBack(v: Vault, s0: State, steps: seq<Step>, gen: Generated)
    requires Quiet(s0) && s0.saver.None? && ImageOf(v, s0.disk, s0.memory) && Possible(v, s0, steps)
    requires Quiet(Exec(v, s0, steps)) && Exec(v, s0, steps).lastWriteOk
    requires Sound(v) && gen.Real()
    ensures var s := Exec(v, s0, steps);
            && (Decoded(v, s.disk, gen) == Ok(s.memory) <==> Settled(s.memory) && !StillSealed(s.memory))
            && (!StillSealed(s.memory) ==> Decoded(v, s.disk, gen) == Normalized(s.memory, gen))
  {
    QuietMeansDurable(v, s0, steps);
    var s := Exec(v, s0, steps);
    var rnd :| s.disk == Json(Sealed(v, s.memory, rnd));
    SaveLoadRoundTrip(v, s.memory, rnd, gen);
    if !StillSealed(s.memory) { LoadGivesNormalized(v, s.memory, rnd, gen); }
  }

  /** A lone call, from start to return: a failed write leaves its change in memory only. */
  lemma LoneUpdate(v: Vault, s: State, to: Settings, rnd: Slot -> nat, ok: bool)
    requires Quiet(s) && s.saver.None? && |s.phases| > 0
    ensures var steps := [Change(0, to), Acquire(0), Marshal(0, rnd), Write(0, ok)] + if ok then [Release(0)] else [];
            Possible(v, s, steps) &&
            Exec(v, s, steps) == s.(memory := to, lastWriteOk := ok,
                                    disk := if ok then Json(Sealed(v, to, rnd)) else s.disk)
  {
    var steps := [Change(0, to), Acquire(0), Marshal(0, rnd), Write(0, ok)] + if ok then [Release(0)] else [];
    var s1 := Next(v, s, steps[0]);
    var s2 := Next(v, s1, Acquire(0));
    var s3 := Next(v, s2, Marshal(0, rnd));
    var s4 := Next(v, s3, Write(0, ok));
    var rest1, rest2, rest3, rest4 := steps[1..], steps[2..], steps[3..], steps[4..];
    assert rest1[1..] == rest2 && rest2[1..] == rest3 && rest3[1..] == rest4;
    assert Idle == s.phases[0];
    if ok {
      var s5 := Next(v, s4, Release(0));
      assert rest4[1..] == [] && s5.phases == s.phases;
      assert Possible(v, s5, []) && Possible(v, s4, rest4) && Exec(v, s4, rest4) == Exec(v, s5, []) == s5;
    } else {
      assert s4.phases == s.phases && rest4 == [];
      assert Possible(v, s4, rest4) && Exec(v, s4, rest4) == s4;
    }
    assert Possible(v, s3, rest3) && Exec(v, s3, rest3) == Exec(v, s4, rest4);
    assert Possible(v, s2, rest2) && Exec(v, s2, rest2) == Exec(v, s3, rest3);
    assert Possible(v, s1, rest1) && Exec(v, s1, rest1) == Exec(v, s2, rest2);
  }

  /** A lone SetBackend whose backend gives a configuration: that is what memory holds from then on, and
      the file if its write works. One that gives up leaves everything as it was. */
  lemma LoneSetBackend(v: Vault, s: State, to: Settings, rnd: Slot -> nat, ok: bool)
    requires Quiet(s) && s.saver.None? && |s.phases| > 0
    ensures var steps := [Attach(0), Install(0, to), Marshal(0, rnd), Write(0, ok)] + if ok then [Release(0)] else [];
            Possible(v, s, steps) &&
            Exec(v, s, steps) == s.(memory := to, lastWriteOk := ok,
                                    disk := if ok then Json(Sealed(v, to, rnd)) else s.disk)
    ensures Possible(v, s, [Attach(0), Abandon(0)]) && Exec(v, s, [Attach(0), Abandon(0)]) == s
  {
    var s1 := Next(v, s, Attach(0));
    var s2 := Next(v, s1, Install(0, to));
    var s3 := Next(v, s2, Marshal(0, rnd));
    var s4 := Next(v, s3, Write(0, ok));
    assert Idle == s.phases[0];
    if ok {
      assert Next(v, s4, Release(0)).phases == s.phases;
      FirstStep(v, s4, Release(0), []);
    } else {
      assert s4.phases == s.phases;
    }
    var rest := if ok then [Release(0)] else [];
    FirstStep(v, s3, Write(0, ok), rest);
    FirstStep(v, s2, Marshal(0, rnd), [Write(0, ok)] + rest);
    FirstStep(v, s1, Install(0, to), [Marshal(0, rnd)] + ([Write(0, ok)] + rest));
    FirstStep(v, s, Attach(0), [Install(0, to)] + ([Marshal(0, rnd)] + ([Write(0, ok)] + rest)));
    assert [Attach(0), Install(0, to), Marshal(0, rnd), Write(0, ok)] + rest
        == [Attach(0)] + ([Install(0, to)] + ([Marshal(0, rnd)] + ([Write(0, ok)] + rest)));
    assert Next(v, s1, Abandon(0)).phases == s.phases;
    FirstStep(v, s1, Abandon(0), []);
    FirstStep(v, s, Attach(0), [Abandon(0)]);
  }

  lemma FirstStep(v: Vault, s: State, step: Step, rest: seq<Step>)
    requires Enabled(s, step) && Possible(v, Next(v, s, step), rest)
    ensures Possible(v, s, [step] + rest) && Exec(v, s, [step] + rest) == Exec(v, Next(v, s, step), rest)
  {
    assert ([step] + rest)[1..] == rest;
  }
}
