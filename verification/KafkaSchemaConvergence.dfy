/** Passes that read current states and whose calls succeed make every schema ready that can be made ready. */
module KafkaSchemaConvergence {
  import opened Base
  import opened SchemaGraph
  import opened SchemaRegistry
  import opened KafkaSchemas
  import opened KafkaSchemaTracking
  import CompatibilityOverride

  const ALL_SUCCEED := Calls(true, true, CompatibilityOverride.Calls(false, false, Acknowledged), Acknowledged, true)

  function CleanPass(w: World, n: Name): (p: Pass)
    requires KafkaSchemas.Valid(w) && n in w.specs
    ensures Next(w, p).Some?
  {
    var view := CurrentView(w);
    Pass(n, |w.stored[n]| - 1, view, view, view, ALL_SUCCEED, Acknowledged, Acknowledged)
  }

  function Cleanly(w: World, n: Name): (w': World)
    requires KafkaSchemas.Valid(w) && n in w.specs
    ensures KafkaSchemas.Valid(w') && w'.specs == w.specs
  {
    NextKeepsValid(w, CleanPass(w, n), Next(w, CleanPass(w, n)).value);
    Next(w, CleanPass(w, n)).value
  }

  /** The current spec, with its references as they resolve now, has been registered and recorded. */
  ghost predicate Registered(w: World, n: Name) {
    && KafkaSchemas.Valid(w) && n in w.specs
    && w.specs[n].subject in w.registry.subjects
    && Desired(w, n).Some?
    && Latest(w, n).fingerprint == Some(FingerprintOf(w.specs[n], Desired(w, n).value))
    && Latest(w, n).processed == Some(w.specs[n].generation)
  }

  ghost predicate Settled(w: World, n: Name) {
    Registered(w, n) && Latest(w, n).running
  }

  ghost predicate GateIsOpen(w: World, n: Name) {
    KafkaSchemas.Valid(w) && n in w.specs && GateOpen(w, w.specs[n].references, CurrentView(w))
  }

  // ---------------------------------------------------------------- one pass

  /** A pass leaves all other objects alone and stores what it wants to. */
  lemma CleanAfter(w: World, p: Pass, effect: Applied, w': World)
    requires KafkaSchemas.Valid(w) && KafkaSchemas.Valid(w') && p.name in w.specs
    requires p.seen == |w.stored[p.name]| - 1 && p.status == Acknowledged && p.patch == Acknowledged
    requires w' == After(w, p, w.specs[p.name].subject, effect)
    ensures w'.registry == effect.registry && Latest(w', p.name) == effect.obj
    ensures forall m | m in w.stored && m != p.name :: Latest(w', m) == Latest(w, m)
  {
    AfterStores(w, p, effect, w', p.name);
    PersistedLast(w.stored[p.name], p.seen, effect.obj, p.status, p.patch);
    forall m | m in w.stored && m != p.name
      ensures Latest(w', m) == Latest(w, m)
    {
      AfterStores(w, p, effect, w', m);
    }
  }

  lemma CleanlyIsAfter(w: World, n: Name)
    requires KafkaSchemas.Valid(w) && n in w.specs
    ensures Cleanly(w, n) == After(w, CleanPass(w, n), w.specs[n].subject, Effect(w, w.specs[n], CleanPass(w, n)))
  {
  }

  lemma CleanStores(w: World, n: Name)
    requires KafkaSchemas.Valid(w) && n in w.specs
    ensures var w' := Cleanly(w, n); var effect := Effect(w, w.specs[n], CleanPass(w, n));
            && Latest(w', n) == effect.obj && w'.registry == effect.registry
            && forall m | m in w.stored && m != n :: Latest(w', m) == Latest(w, m)
  {
    CleanlyIsAfter(w, n);
    CleanAfter(w, CleanPass(w, n), Effect(w, w.specs[n], CleanPass(w, n)), Cleanly(w, n));
  }

  lemma RegistryOnlyGrows(w: World, n: Name)
    requires KafkaSchemas.Valid(w) && n in w.specs
    ensures Extends(Cleanly(w, n).registry, w.registry)
  {
    EffectRegisters(w, w.specs[n], CleanPass(w, n));
  }

  lemma FrontLocals(references: seq<Reference>)
    requires references != []
    ensures Locals(references[..|references| - 1]) <= Locals(references)
    ensures var last := references[|references| - 1]; last.Local? ==> last.schema in Locals(references)
  {
    var front := references[..|references| - 1];
    forall m | m in Locals(front)
      ensures m in Locals(references)
    {
      var i :| 0 <= i < |front| && front[i].Local? && front[i].schema == m;
      assert references[i] == front[i];
    }
  }

  /** The referents have the same versions in both states. */
  ghost predicate SameVersions(w: World, w': World, references: seq<Reference>)
    requires KafkaSchemas.Valid(w) && KafkaSchemas.Valid(w') && w.specs == w'.specs
  {
    forall m | m in Locals(references) && m in w.specs :: Latest(w, m).version == Latest(w', m).version
  }

  lemma ResolveOneDependsOnVersion(w: World, w': World, reference: Reference)
    requires KafkaSchemas.Valid(w) && KafkaSchemas.Valid(w') && w.specs == w'.specs
    requires reference.Local? && reference.schema in w.specs ==>
               Latest(w, reference.schema).version == Latest(w', reference.schema).version
    ensures ResolveOne(w, reference, CurrentView(w)) == ResolveOne(w', reference, CurrentView(w'))
  {
  }

  /** What references resolve to depends only on the versions of the referents. */
  lemma {:induction false} ResolveDependsOnVersions(w: World, w': World, references: seq<Reference>)
    requires KafkaSchemas.Valid(w) && KafkaSchemas.Valid(w') && w.specs == w'.specs
    requires SameVersions(w, w', references)
    ensures Resolve(w, references, CurrentView(w)) == Resolve(w', references, CurrentView(w'))
    decreases |references|
  {
    if references != [] {
      FrontLocals(references);
      ResolveDependsOnVersions(w, w', references[..|references| - 1]);
      ResolveOneDependsOnVersion(w, w', references[|references| - 1]);
    }
  }

  /** A pass on a schema whose referents are ready registers it, unless it is registered: then it settles it. */
  lemma OpenGatePass(w: World, n: Name)
    requires KafkaSchemas.Valid(w) && n in w.specs && n !in Locals(w.specs[n].references)
    requires GateIsOpen(w, n) && Desired(w, n).Some?
    ensures var w' := Cleanly(w, n);
            && Desired(w', n) == Desired(w, n)
            && Registered(w', n)
            && (Registered(w, n) ==> Settled(w', n) && Latest(w', n).version == Latest(w, n).version)
  {
    CleanStores(w, n);
    OpenGateEffect(w, n);
    RegistryOnlyGrows(w, n);
    ResolveDependsOnVersions(w, Cleanly(w, n), w.specs[n].references);
  }

  /** What the pass stores. */
  lemma OpenGateEffect(w: World, n: Name)
    requires KafkaSchemas.Valid(w) && n in w.specs && GateIsOpen(w, n) && Desired(w, n).Some?
    ensures var spec, o, effect := w.specs[n], Latest(w, n), Effect(w, w.specs[n], CleanPass(w, n));
            && effect.obj.fingerprint == Some(FingerprintOf(spec, Desired(w, n).value))
            && effect.obj.processed == Some(spec.generation) && spec.subject in effect.registry.subjects
            && (Registered(w, n) ==> effect.obj.running && effect.obj.version == o.version)
  {
    if Registered(w, n) {
      RegisteredIsKept(w, n);
    } else {
      UnregisteredIsApplied(w, n);
    }
  }

  lemma RegisteredIsKept(w: World, n: Name)
    requires Registered(w, n) && GateIsOpen(w, n)
    ensures var o, effect := Latest(w, n), Effect(w, w.specs[n], CleanPass(w, n));
            && effect.obj.fingerprint == o.fingerprint && effect.obj.processed == o.processed
            && effect.obj.version == o.version && effect.obj.running && effect.registry == w.registry
  {
    RegisteredIsObserved(w, n);
    UpToDateIsCompleted(w, w.specs[n], CleanPass(w, n), Latest(w, n));
  }

  lemma RegisteredIsObserved(w: World, n: Name)
    requires Registered(w, n)
    ensures var o := Latest(w, n);
            Observe(w, w.specs[n], o, CurrentView(w), ALL_SUCCEED) ==
            Observed(Backfilled(w.specs[n], o).(running := true), UpToDate)
  {
  }

  lemma UpToDateIsCompleted(w: World, spec: Spec, p: Pass, o: Object)
    requires p.name in w.stored && p.seen < |w.stored[p.name]| && o == w.stored[p.name][p.seen]
    requires GateOpen(w, spec.references, p.gate) && Observe(w, spec, o, p.observe, p.calls).verdict.UpToDate?
    ensures Effect(w, spec, p) ==
            Applied(w.registry, ConfigOf(w, spec.subject),
                    Completed(spec, Observe(w, spec, o, p.observe, p.calls).obj), false, true)
  {
  }

  lemma CleanApply(w: World, spec: Spec, o: Object, view: View)
    requires Resolve(w, spec.references, view).Some?
    ensures var applied := ApplySchema(w, spec, o, view, ALL_SUCCEED);
            && applied.ok && applied.posted && applied.obj.running == o.running
            && spec.subject in applied.registry.subjects
            && applied.obj.fingerprint == Some(FingerprintOf(spec, Resolve(w, spec.references, view).value))
  {
  }

  lemma NotUpToDateIsApplied(w: World, spec: Spec, p: Pass, o: Object)
    requires p.name in w.stored && p.seen < |w.stored[p.name]| && o == w.stored[p.name][p.seen]
    requires GateOpen(w, spec.references, p.gate)
    requires var verdict := Observe(w, spec, o, p.observe, p.calls).verdict; verdict.ToCreate? || verdict.ToUpdate?
    ensures var observed := Observe(w, spec, o, p.observe, p.calls).obj;
            var applied := ApplySchema(w, spec, observed.(running := false), p.apply, p.calls);
            applied.ok ==> Effect(w, spec, p) == applied.(obj := Completed(spec, applied.obj))
  {
  }

  /** A pass that does not find the schema as desired registers it, if its calls succeed. */
  lemma CleanEffect(w: World, spec: Spec, p: Pass, o: Object)
    requires p.name in w.stored && p.seen < |w.stored[p.name]| && o == w.stored[p.name][p.seen]
    requires GateOpen(w, spec.references, p.gate) && p.calls == ALL_SUCCEED
    requires var verdict := Observe(w, spec, o, p.observe, p.calls).verdict; verdict.ToCreate? || verdict.ToUpdate?
    requires Resolve(w, spec.references, p.apply).Some?
    ensures var effect := Effect(w, spec, p);
            && effect.posted && effect.ok && spec.subject in effect.registry.subjects
            && effect.obj.processed == Some(spec.generation) && !effect.obj.running
            && effect.obj.fingerprint == Some(FingerprintOf(spec, Resolve(w, spec.references, p.apply).value))
  {
    CleanApply(w, spec, Observe(w, spec, o, p.observe, p.calls).obj.(running := false), p.apply);
    NotUpToDateIsApplied(w, spec, p, o);
  }

  /** If the schema was not registered as desired before, its version holds what is desired afterwards,
      whatever the registry held. */
  lemma OpenGatePassIsCurrent(w: World, n: Name)
    requires AllHeld(w) && n in w.specs && n !in Locals(w.specs[n].references)
    requires GateIsOpen(w, n) && Desired(w, n).Some?
    ensures !Registered(w, n) || Tracks(w.registry, w.specs[n], Latest(w, n)) ==> ReferencesAreCurrent(Cleanly(w, n), n)
  {
    OpenGatePass(w, n);
    var p := CleanPass(w, n);
    NextTracksExactly(w, p, Cleanly(w, n), n);
    if !Registered(w, n) {
      UnregisteredIsApplied(w, n);
    }
  }

  lemma UnregisteredIsApplied(w: World, n: Name)
    requires KafkaSchemas.Valid(w) && n in w.specs && GateIsOpen(w, n) && Desired(w, n).Some? && !Registered(w, n)
    ensures Registers(w, CleanPass(w, n))
    ensures var spec, effect := w.specs[n], Effect(w, w.specs[n], CleanPass(w, n));
            && effect.obj.fingerprint == Some(FingerprintOf(spec, Desired(w, n).value))
            && effect.obj.processed == Some(spec.generation) && spec.subject in effect.registry.subjects
            && !effect.obj.running
  {
    UnregisteredIsNoticed(w, n);
    CleanEffect(w, w.specs[n], CleanPass(w, n), Latest(w, n));
  }

  lemma UnregisteredIsNoticed(w: World, n: Name)
    requires KafkaSchemas.Valid(w) && n in w.specs && Desired(w, n).Some? && !Registered(w, n)
    ensures var verdict := Observe(w, w.specs[n], Latest(w, n), CurrentView(w), ALL_SUCCEED).verdict;
            verdict.ToCreate? || verdict.ToUpdate?
  {
  }

  lemma UnmovedStays(w: World, w': World, n: Name)
    requires KafkaSchemas.Valid(w) && KafkaSchemas.Valid(w') && w'.specs == w.specs && n in w.specs
    requires Latest(w', n) == Latest(w, n) && w.registry.subjects.Keys <= w'.registry.subjects.Keys
    requires forall m | m in Locals(w.specs[n].references) && m in w.specs ::
             Latest(w, m).version == Latest(w', m).version
    ensures Registered(w, n) ==> Registered(w', n)
    ensures Settled(w, n) ==> Settled(w', n)
  {
    ResolveDependsOnVersions(w, w', w.specs[n].references);
  }

  /** A pass on another schema changes nothing for n, as long as it does not move a referent of n. */
  lemma OtherPass(w: World, n: Name, other: Name)
    requires KafkaSchemas.Valid(w) && n in w.specs && other in w.specs && other != n
    requires other in Locals(w.specs[n].references) ==>
             Latest(Cleanly(w, other), other).version == Latest(w, other).version
    ensures Registered(w, n) ==> Registered(Cleanly(w, other), n)
    ensures Settled(w, n) ==> Settled(Cleanly(w, other), n)
  {
    CleanStores(w, other);
    RegistryOnlyGrows(w, other);
    UnmovedStays(w, Cleanly(w, other), n);
  }

  // ---------------------------------------------------------------- layer by layer

  ghost predicate LayerSettled(w: World, k: nat) {
    KafkaSchemas.Valid(w) && forall n | n in Layer(References(w.specs), k) :: Settled(w, n)
  }

  lemma SettledHasVersion(w: World, n: Name)
    requires Settled(w, n)
    ensures Latest(w, n).version >= 1
  {
    assert ValidStates(w.stored[n]);
  }

  /** The layer below settled means that the gate is open and the references resolve. */
  lemma SettledBelowOpens(w: World, n: Name, k: nat)
    requires LayerSettled(w, k) && n in Layer(References(w.specs), k + 1)
    ensures GateIsOpen(w, n) && Desired(w, n).Some? && n !in Locals(w.specs[n].references)
  {
    var references := w.specs[n].references;
    assert Locals(references) <= Layer(References(w.specs), k);
    forall i | 0 <= i < |references| && references[i].Local?
      ensures Settled(w, references[i].schema)
    {
      assert references[i].schema in Locals(references);
    }
    forall i | 0 <= i < |references|
      ensures ResolveOne(w, references[i], CurrentView(w)).Some?
    {
      if references[i].Local? {
        SettledHasVersion(w, references[i].schema);
      }
    }
    ResolveMeaning(w, references, CurrentView(w));
    if n in Locals(references) {
      CycleHasNoLayer(References(w.specs), k + 1, [n, n]);
      assert false;
    }
  }

  lemma LayerBelow(w: World, n: Name, k: nat)
    requires LayerSettled(w, k) && n in Layer(References(w.specs), k)
    ensures k > 0 && LayerSettled(w, k - 1)
    ensures Locals(w.specs[n].references) <= Layer(References(w.specs), k - 1) <= Layer(References(w.specs), k)
  {
    LayersGrow(References(w.specs), k - 1);
  }

  lemma SettledStays(w: World, m: Name)
    requires Settled(w, m) && GateIsOpen(w, m) && m !in Locals(w.specs[m].references)
    ensures Settled(Cleanly(w, m), m) && Latest(Cleanly(w, m), m).version == Latest(w, m).version
  {
    OpenGatePass(w, m);
  }

  lemma SettledLayerOpens(w: World, m: Name, k: nat)
    requires LayerSettled(w, k) && m in Layer(References(w.specs), k)
    ensures Settled(w, m) && GateIsOpen(w, m) && m !in Locals(w.specs[m].references)
  {
    LayerBelow(w, m, k);
    SettledBelowOpens(w, m, k - 1);
  }

  lemma PassKeepsLayer(w: World, m: Name, k: nat)
    requires LayerSettled(w, k) && m in w.specs
    ensures LayerSettled(Cleanly(w, m), k)
    ensures m in Layer(References(w.specs), k) ==> Latest(Cleanly(w, m), m).version == Latest(w, m).version
  {
    var g := References(w.specs);
    if m in Layer(g, k) {
      SettledLayerOpens(w, m, k);
      SettledStays(w, m);
    }
    forall n | n in Layer(g, k)
      ensures Settled(Cleanly(w, m), n)
    {
      if n != m {
        LayerBelow(w, n, k);
        OtherPass(w, n, m);
      }
    }
  }

  /** How far a schema has come: neither, registered, or settled. */
  ghost function Stage(w: World, n: Name): nat {
    if Settled(w, n) then 2 else if Registered(w, n) then 1 else 0
  }

  lemma PassAdvances(w: World, m: Name, n: Name, k: nat)
    requires LayerSettled(w, k) && m in w.specs && n in Layer(References(w.specs), k + 1)
    ensures Stage(Cleanly(w, m), n) >= Stage(w, n)
    ensures m == n && Stage(w, n) < 2 ==> Stage(Cleanly(w, m), n) >= Stage(w, n) + 1
  {
    SettledBelowOpens(w, n, k);
    if m == n {
      OpenGatePass(w, n);
    } else {
      PassKeepsLayer(w, m, k);
      OtherPass(w, n, m);
    }
  }

  // ---------------------------------------------------------------- sweeps

  /** Passes over the named schemas, in this order. */
  function Sweep(w: World, names: seq<Name>): (end: World)
    requires KafkaSchemas.Valid(w) && forall n | n in names :: n in w.specs
    ensures KafkaSchemas.Valid(end) && end.specs == w.specs
    decreases |names|
  {
    if names == [] then w
    else
      assert names[0] in names;
      Sweep(Cleanly(w, names[0]), names[1..])
  }

  /** A full sweep runs a pass on every schema at least once, in any order. */
  ghost predicate IsFullSweep(specs: map<Name, Spec>, names: seq<Name>) {
    (forall n | n in names :: n in specs) && (forall n | n in specs :: n in names)
  }

  function Sweeps(w: World, sweeps: seq<seq<Name>>): (end: World)
    requires KafkaSchemas.Valid(w) && forall s | s in sweeps :: IsFullSweep(w.specs, s)
    ensures KafkaSchemas.Valid(end) && end.specs == w.specs
    decreases |sweeps|
  {
    if sweeps == [] then w
    else
      assert IsFullSweep(w.specs, sweeps[0]);
      Sweeps(Sweep(w, sweeps[0]), sweeps[1..])
  }

  lemma {:induction false} SweepAdvances(w: World, names: seq<Name>, n: Name, k: nat)
    requires LayerSettled(w, k) && n in Layer(References(w.specs), k + 1)
    requires forall m | m in names :: m in w.specs
    ensures LayerSettled(Sweep(w, names), k)
    ensures Stage(Sweep(w, names), n) >= Stage(w, n)
    ensures n in names && Stage(w, n) < 2 ==> Stage(Sweep(w, names), n) >= Stage(w, n) + 1
    decreases |names|
  {
    if names != [] {
      assert names[0] in names;
      PassKeepsLayer(w, names[0], k);
      PassAdvances(w, names[0], n, k);
      SweepAdvances(Cleanly(w, names[0]), names[1..], n, k);
    }
  }

  lemma {:induction false} SweepKeepsLayer(w: World, names: seq<Name>, k: nat)
    requires LayerSettled(w, k) && forall m | m in names :: m in w.specs
    ensures LayerSettled(Sweep(w, names), k)
    decreases |names|
  {
    if names != [] {
      assert names[0] in names;
      PassKeepsLayer(w, names[0], k);
      SweepKeepsLayer(Cleanly(w, names[0]), names[1..], k);
    }
  }

  /** Two full sweeps settle the next layer. */
  lemma TwoSweepsSettleALayer(w: World, first: seq<Name>, second: seq<Name>, k: nat)
    requires LayerSettled(w, k) && IsFullSweep(w.specs, first) && IsFullSweep(w.specs, second)
    ensures LayerSettled(Sweep(Sweep(w, first), second), k + 1)
  {
    var mid := Sweep(w, first);
    SweepKeepsLayer(w, first, k);
    SweepKeepsLayer(mid, second, k);
    forall n | n in Layer(References(w.specs), k + 1)
      ensures Settled(Sweep(mid, second), n)
    {
      SweepAdvances(w, first, n, k);
      SweepAdvances(mid, second, n, k);
    }
  }

  lemma {:induction false} SweepsSettle(w: World, sweeps: seq<seq<Name>>, done: nat, k: nat)
    requires LayerSettled(w, done) && forall s | s in sweeps :: IsFullSweep(w.specs, s)
    requires k <= done + |sweeps| / 2
    ensures LayerSettled(Sweeps(w, sweeps), k)
    decreases |sweeps|
  {
    if |sweeps| < 2 {
      LaterLayer(References(w.specs), k, done);
      if |sweeps| == 1 {
        assert sweeps[0] in sweeps;
        SweepKeepsLayer(w, sweeps[0], done);
        assert Sweeps(w, sweeps) == Sweep(w, sweeps[0]);
      }
    } else {
      var first, second, rest := sweeps[0], sweeps[1], sweeps[2..];
      assert first in sweeps && second in sweeps;
      TwoSweepsSettleALayer(w, first, second, done);
      var mid := Sweep(w, first);
      assert sweeps[1..][0] == second && sweeps[1..][1..] == rest;
      assert second in sweeps[1..];
      assert Sweeps(w, sweeps) == Sweeps(Sweep(mid, second), rest);
      SweepsSettle(Sweep(mid, second), rest, done + 1, k);
    }
  }

  // ---------------------------------------------------------------- sweeps are runs

  /** The passes of a sweep; none of them is torn. */
  lemma {:induction false} SweepIsRun(w: World, names: seq<Name>) returns (passes: seq<Pass>)
    requires KafkaSchemas.Valid(w) && forall n | n in names :: n in w.specs
    ensures Run(w, passes) == Some(Sweep(w, names)) && forall p | p in passes :: !IsTorn(p)
    decreases |names|
  {
    if names == [] {
      passes := [];
    } else {
      assert names[0] in names;
      var p := CleanPass(w, names[0]);
      var rest := SweepIsRun(Cleanly(w, names[0]), names[1..]);
      passes := [p] + rest;
      assert Next(w, p) == Some(Cleanly(w, names[0])) && passes[1..] == rest;
    }
  }

  lemma {:induction false} SweepsAreRun(w: World, sweeps: seq<seq<Name>>) returns (passes: seq<Pass>)
    requires KafkaSchemas.Valid(w) && forall s | s in sweeps :: IsFullSweep(w.specs, s)
    ensures Run(w, passes) == Some(Sweeps(w, sweeps)) && forall p | p in passes :: !IsTorn(p)
    decreases |sweeps|
  {
    if sweeps == [] {
      passes := [];
    } else {
      assert IsFullSweep(w.specs, sweeps[0]);
      var first := SweepIsRun(w, sweeps[0]);
      var rest := SweepsAreRun(Sweep(w, sweeps[0]), sweeps[1..]);
      RunAppend(w, first, rest);
      passes := first + rest;
    }
  }

  lemma SweepsTrack(w: World, sweeps: seq<seq<Name>>)
    requires AllTrack(w) && forall s | s in sweeps :: IsFullSweep(w.specs, s)
    ensures AllTrack(Sweeps(w, sweeps))
  {
    var passes := SweepsAreRun(w, sweeps);
    RunTracks(w, passes, Sweeps(w, sweeps));
  }

  lemma SweepsAreReached(w: World, sweeps: seq<seq<Name>>)
    requires KafkaSchemas.Valid(w) && forall s | s in sweeps :: IsFullSweep(w.specs, s)
    ensures Reaches(w, Sweeps(w, sweeps))
  {
    var passes := SweepsAreRun(w, sweeps);
  }

  /** For a settled schema the fingerprint says what is desired, so its references are current exactly if its
      version tracks the fingerprint. */
  lemma SettledIsCurrentIfTracking(w: World, n: Name)
    requires Settled(w, n)
    ensures ReferencesAreCurrent(w, n) <==> Tracks(w.registry, w.specs[n], Latest(w, n))
  {
  }

  // ---------------------------------------------------------------- everything gets ready

  /** After two full sweeps for each level of the reference graph, from any state, every schema is ready, and its
      fingerprint is that of its spec with its references as they resolve now. If versions tracked fingerprints at
      the beginning they do in the end, and every registered reference is current. */
  lemma EverySchemaGetsReady(w: World, sweeps: seq<seq<Name>>, depth: nat)
    requires KafkaSchemas.Valid(w) && forall s | s in sweeps :: IsFullSweep(w.specs, s)
    requires Closed(References(w.specs)) && DepthAtMost(References(w.specs), depth) && |sweeps| >= 2 * depth
    ensures var end := Sweeps(w, sweeps);
            && (forall n | n in w.specs :: Settled(end, n) && IsReadyToUse(end.specs[n], Latest(end, n)))
            && (AllTrack(w) ==> AllTrack(end) && AllCurrent(end))
  {
    DepthBoundsLayers(References(w.specs), depth);
    SweepsSettle(w, sweeps, 0, depth);
    var end := Sweeps(w, sweeps);
    forall n | n in w.specs
      ensures Settled(end, n)
    {
      assert n in Layer(References(w.specs), depth);
    }
    if AllTrack(w) {
      SweepsTrack(w, sweeps);
      SettledAndTrackedIsCurrent(end);
    }
  }

  ghost predicate AllCurrent(w: World) {
    forall n | n in w.specs :: ReferencesAreCurrent(w, n)
  }

  lemma SettledAndTrackedIsCurrent(w: World)
    requires AllTrack(w) && forall n | n in w.specs :: Settled(w, n)
    ensures AllCurrent(w)
  {
    forall n | n in w.specs
      ensures ReferencesAreCurrent(w, n)
    {
      SettledIsCurrentIfTracking(w, n);
    }
  }

  lemma AcyclicSchemasGetReady(w: World, sweeps: seq<seq<Name>>)
    requires KafkaSchemas.Valid(w) && forall s | s in sweeps :: IsFullSweep(w.specs, s)
    requires Closed(References(w.specs)) && Acyclic(References(w.specs)) && |sweeps| >= 2 * |w.specs|
    ensures forall n | n in w.specs :: Settled(Sweeps(w, sweeps), n)
    ensures AllTrack(w) ==> AllCurrent(Sweeps(w, sweeps))
  {
    AcyclicDepth(References(w.specs));
    assert References(w.specs).Keys == w.specs.Keys;
    assert |References(w.specs)| == |References(w.specs).Keys| == |w.specs.Keys| == |w.specs|;
    EverySchemaGetsReady(w, sweeps, |w.specs|);
  }

  /** As a run: where versions track fingerprints, a state is reached in which everything is up to date. */
  lemma ConvergedStateIsReached(w: World, sweeps: seq<seq<Name>>) returns (end: World)
    requires AllTrack(w) && forall s | s in sweeps :: IsFullSweep(w.specs, s)
    requires Closed(References(w.specs)) && Acyclic(References(w.specs)) && |sweeps| >= 2 * |w.specs|
    ensures Reaches(w, end) && end.specs == w.specs && AllTrack(end)
    ensures AllCurrent(end) && forall n | n in w.specs :: Settled(end, n)
  {
    AcyclicSchemasGetReady(w, sweeps);
    SweepsTrack(w, sweeps);
    SweepsAreReached(w, sweeps);
    end := Sweeps(w, sweeps);
  }
}
