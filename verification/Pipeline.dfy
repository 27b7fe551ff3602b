/** The GPU dispatcher: at most one backend holds its model at a time. */
module Pipeline {
  import opened Options

  /** How a call into a backend goes. */
  datatype Call = Works | Raises

  datatype Reply = Generated | UnknownBackend | LoadFailed | GenerationFailed

  /** loaded is the dispatcher's own note; resident are the backends that hold a model. */
  datatype State = State(backends: set<string>, loaded: Option<string>, resident: set<string>)

  datatype Step = Generate(id: string, load: Call, run: Call) | Unload

  function Unloaded(st: State): State {
    if st.loaded.Some? then st.(resident := st.resident - {st.loaded.value}) else st
  }

  /** Loading a backend that holds its model already does nothing; running one that does not raises. */
  function Apply(st: State, step: Step): (State, Option<Reply>) {
    match step
    case Unload => (Unloaded(st).(loaded := None), None)
    case Generate(id, load, run) =>
      if id !in st.backends then (st, Some(UnknownBackend))
      else if st.loaded != Some(id) && id !in Unloaded(st).resident && load.Raises? then
        (Unloaded(st), Some(LoadFailed))
      else
        var st' := if st.loaded == Some(id) then st
                   else Unloaded(st).(loaded := Some(id), resident := Unloaded(st).resident + {id});
        (st', Some(if run.Works? && id in st'.resident then Generated else GenerationFailed))
  }

  function Run(backends: set<string>, steps: seq<Step>): State {
    if steps == [] then State(backends, None, {})
    else Apply(Run(backends, steps[..|steps| - 1]), steps[|steps| - 1]).0
  }

  class PipelineDispatcher {
    const backends: set<string>
    var loaded: Option<string>
    /** The backends whose load has run and whose unload has not. */
    var resident: set<string>

    function Value(): State
      reads this
    {
      State(backends, loaded, resident)
    }

    constructor (backends: set<string>)
      ensures Value() == Run(backends, [])
    {
      this.backends, loaded, resident := backends, None, {};
    }

    /** One call under the GPU lock; load and run tell how the backend behaves. */
    method Generate(id: string, load: Call, run: Call) returns (reply: Reply)
      modifies this
      ensures (Value(), Some(reply)) == Apply(old(Value()), Step.Generate(id, load, run))
    {
      if id !in backends {
        return UnknownBackend;
      }
      if loaded != Some(id) {
        if loaded.Some? {
          resident := resident - {loaded.value};
        }
        if id !in resident && load.Raises? {
          return LoadFailed;
        }
        resident := resident + {id};
        loaded := Some(id);
      }
      if id !in resident || run.Raises? {
        return GenerationFailed;
      }
      return Generated;
    }

    method Unload()
      modifies this
      ensures Value() == Apply(old(Value()), Step.Unload).0
    {
      if loaded.Some? {
        resident := resident - {loaded.value};
        loaded := None;
      }
    }
  }

  // ---------------------------------------------------------------- theorems

  /** Only the backend named by loaded can be resident, and it is a known one. */
  predicate Exclusive(st: State) {
    && (forall id :: id in st.resident ==> st.loaded == Some(id))
    && (st.loaded.Some? ==> st.loaded.value in st.backends)
  }

  lemma {:induction false} RunIsExclusive(backends: set<string>, steps: seq<Step>)
    ensures Exclusive(Run(backends, steps)) && Run(backends, steps).backends == backends
    decreases |steps|
  {
    if steps != [] {
      RunIsExclusive(backends, steps[..|steps| - 1]);
    }
  }

  /** GPU exclusivity: over every run at most one backend is resident. */
  lemma AtMostOneResident(backends: set<string>, steps: seq<Step>)
    ensures |Run(backends, steps).resident| <= 1
  {
    RunIsExclusive(backends, steps);
    var st := Run(backends, steps);
    if st.loaded.Some? {
      assert st.resident <= {st.loaded.value};
      Subset(st.resident, {st.loaded.value});
    } else {
      assert st.resident == {};
    }
  }

  lemma Subset<T>(a: set<T>, b: set<T>)
    requires a <= b
    ensures |a| <= |b|
  {
    assert b == a + (b - a);
  }

  /** What each outcome leaves behind: success exactly the one asked for, an unknown name nothing
      changed, a failed load nothing resident. */
  lemma GenerateLeaves(backends: set<string>, steps: seq<Step>, id: string, load: Call, run: Call)
    ensures var st := Run(backends, steps); var (st', reply) := Apply(st, Generate(id, load, run));
            && (reply == Some(Generated) ==> st'.resident == {id} && st'.loaded == Some(id))
            && (reply == Some(UnknownBackend) <==> id !in backends)
            && (reply == Some(UnknownBackend) ==> st' == st)
            && (reply == Some(LoadFailed) ==> st'.resident == {} && st'.loaded == st.loaded)
  {
    RunIsExclusive(backends, steps);
  }

  /** The note names a backend that a failed replacement has unloaded. */
  predicate Stale(st: State) {
    st.loaded.Some? && st.loaded.value !in st.resident
  }

  /** A working backend that is asked for generates, unless the note is stale and names that very
      backend: then it fails although it works, because it is not loaded again. */
  lemma WorkingBackendFailsIff(backends: set<string>, steps: seq<Step>, id: string)
    requires id in backends
    ensures var st := Run(backends, steps);
            Apply(st, Generate(id, Works, Works)).1 != Some(Generated) <==> Stale(st) && st.loaded == Some(id)
  {
    RunIsExclusive(backends, steps);
  }

  /** Every outcome and what it leaves, after any run: an unknown name changes nothing; a load fails, and
      leaves nothing resident, exactly when another backend's raises; otherwise the one asked for is noted,
      is resident unless the note was stale and its own, and generates exactly when it is and works. */
  lemma GenerateTells(backends: set<string>, steps: seq<Step>, id: string, load: Call, run: Call)
    ensures var st := Run(backends, steps); var (st', reply) := Apply(st, Generate(id, load, run));
            var left := Stale(st) && st.loaded == Some(id);
            && reply == Some(if id !in backends then UnknownBackend
                             else if st.loaded != Some(id) && load.Raises? then LoadFailed
                             else if !left && run.Works? then Generated
                             else GenerationFailed)
            && st' == if id !in backends then st
                      else if st.loaded != Some(id) && load.Raises? then State(backends, st.loaded, {})
                      else State(backends, Some(id), if left then {} else {id})
  {
    RunIsExclusive(backends, steps);
    var st := Run(backends, steps);
    hide Run;
    if st.loaded.Some? {
      assert st.resident - {st.loaded.value} == {};
      assert st.loaded == Some(id) && !Stale(st) ==> st.resident == {id};
      assert Stale(st) ==> st.resident == {};
    } else {
      assert st.resident == {};
    }
  }

  /** After an unload nothing is resident or noted. */
  lemma UnloadLeaves(backends: set<string>, steps: seq<Step>)
    ensures Apply(Run(backends, steps), Unload) == (State(backends, None, {}), None)
  {
    RunIsExclusive(backends, steps);
    var st := Run(backends, steps);
    if st.loaded.Some? {
      assert st.resident - {st.loaded.value} == {};
    } else {
      assert st.resident == {};
    }
  }

  /** Such a note stays for as long as only that backend is asked for. */
  lemma {:induction false} StaleStays(st: State, id: string, more: seq<Step>)
    requires Stale(st) && st.loaded == Some(id)
    requires forall i :: 0 <= i < |more| ==> more[i].Generate? && more[i].id == id
    ensures From(st, more) == st
    decreases |more|
  {
    if more != [] {
      StaleStays(st, id, more[..|more| - 1]);
    }
  }

  /** In a run the note is stale after exactly these steps: the failed load of a backend that was to
      replace the noted one, and, with a stale note, a call for an unknown backend or for the noted one. */
  lemma BecomesStaleIff(backends: set<string>, steps: seq<Step>, step: Step)
    ensures var st := Run(backends, steps);
            Stale(Apply(st, step).0) <==>
            && step.Generate? && st.loaded.Some?
            && ((step.id in backends && st.loaded != Some(step.id) && step.load.Raises?) ||
                (Stale(st) && (step.id !in backends || st.loaded == Some(step.id))))
  {
    RunIsExclusive(backends, steps);
  }

  function From(st: State, more: seq<Step>): State {
    if more == [] then st else Apply(From(st, more[..|more| - 1]), more[|more| - 1]).0
  }

  /** It arises: loading a second backend fails after the first was unloaded for it. */
  lemma StaleArises(a: string, b: string)
    requires a != b
    ensures var st := Run({a, b}, [Generate(a, Works, Works), Generate(b, Raises, Works)]);
            Stale(st) && st.loaded == Some(a)
  {
    var steps := [Generate(a, Works, Works), Generate(b, Raises, Works)];
    assert steps[..1] == [Generate(a, Works, Works)] && steps[..1][..0] == [];
    assert Run({a, b}, steps[..1]) == State({a, b}, Some(a), {a});
  }
}
