/** How a reference stays stale without anything that would repair it: by torn passes, and behind shut gates. */
module KafkaSchemaStaleness {
  import opened Base
  import opened SchemaGraph
  import opened SchemaRegistry
  import opened KafkaSchemas
  import opened KafkaSchemaTracking
  import opened KafkaSchemaConvergence
  import opened KafkaSchemaOrder
  import opened KafkaSchemaFixpoint
  import CompatibilityOverride

  // ---------------------------------------------------------------- torn passes that go unnoticed

  /** A settled schema whose gate is open is left alone. */
  lemma SettledIsLeftAlone(w: World, n: Name)
    requires Settled(w, n) && GateIsOpen(w, n)
    requires w.specs[n].level == CompatibilityOverride.CLEARED || Latest(w, n).compatibility.Some?
    ensures LeavesAlone(w, n)
  {
    CleanlyIsAfter(w, n);
    SettledEffect(w, n);
    NothingToStore(w, CleanPass(w, n), w.specs[n].subject, Effect(w, w.specs[n], CleanPass(w, n)));
  }

  lemma SettledEffect(w: World, n: Name)
    requires Settled(w, n) && GateIsOpen(w, n)
    requires w.specs[n].level == CompatibilityOverride.CLEARED || Latest(w, n).compatibility.Some?
    ensures var effect := Effect(w, w.specs[n], CleanPass(w, n));
            && effect.registry == w.registry && effect.obj == Latest(w, n)
            && effect.config == ConfigOf(w, w.specs[n].subject) && !effect.posted
  {
    RegisteredIsObserved(w, n);
    UpToDateIsCompleted(w, w.specs[n], CleanPass(w, n), Latest(w, n));
  }

  ghost predicate AllSettled(w: World) {
    && KafkaSchemas.Valid(w) && Closed(References(w.specs))
    && forall n | n in w.specs :: Settled(w, n) && w.specs[n].level == CompatibilityOverride.CLEARED
  }

  lemma AllSettledOpens(w: World, n: Name)
    requires AllSettled(w) && n in w.specs
    ensures GateIsOpen(w, n)
  {
    var references := w.specs[n].references;
    assert References(w.specs)[n] <= References(w.specs).Keys;
    forall i | 0 <= i < |references| && references[i].Local?
      ensures Settled(w, references[i].schema)
    {
      assert references[i].schema in Locals(references);
    }
  }

  lemma AllSettledIsFixpoint(w: World)
    requires AllSettled(w)
    ensures IsFixpoint(w)
  {
    forall n | n in w.specs
      ensures LeavesAlone(w, n)
    {
      AllSettledOpens(w, n);
      SettledIsLeftAlone(w, n);
    }
  }

  /** A torn pass in a settled state that resolves references from older reads, to something else than they resolve to
      now. */
  ghost predicate TearsOnOldReads(w: World, p: Pass) {
    && AllSettled(w) && p.name in w.specs && p.seen == |w.stored[p.name]| - 1
    && p.gate == CurrentView(w) && p.calls == ALL_SUCCEED && IsTorn(p)
    && p.observe == p.apply
    && var refs := Resolve(w, w.specs[p.name].references, p.apply);
       && refs.Some?
       && FingerprintOf(w.specs[p.name], refs.value) != FingerprintOf(w.specs[p.name], Desired(w, p.name).value)
  }

  lemma OldReadsAreNoticed(w: World, spec: Spec, o: Object, view: View)
    requires spec.subject in w.registry.subjects && Resolve(w, spec.references, view).Some?
    requires o.fingerprint != Some(FingerprintOf(spec, Resolve(w, spec.references, view).value))
    ensures Observe(w, spec, o, view, ALL_SUCCEED).verdict == ToUpdate
  {
  }

  lemma OldReadsRegister(w: World, p: Pass)
    requires TearsOnOldReads(w, p)
    ensures Registers(w, p) && Effect(w, w.specs[p.name], p).obj.fingerprint ==
            Some(FingerprintOf(w.specs[p.name], Resolve(w, w.specs[p.name].references, p.apply).value))
  {
    AllSettledOpens(w, p.name);
    assert Settled(w, p.name);
    OldReadsAreNoticed(w, w.specs[p.name], w.stored[p.name][p.seen], p.observe);
    CleanEffect(w, w.specs[p.name], p, w.stored[p.name][p.seen]);
  }

  /** What such a pass stores: another version, under the annotations that were there. */
  lemma TornStores(w: World, p: Pass, effect: Applied, next: World)
    requires KafkaSchemas.Valid(w) && KafkaSchemas.Valid(next) && p.name in w.specs && IsTorn(p)
    requires p.seen == |w.stored[p.name]| - 1 && next == After(w, p, w.specs[p.name].subject, effect)
    ensures next.specs == w.specs && next.registry == effect.registry
    ensures Latest(next, p.name) == Latest(w, p.name).(id := effect.obj.id, version := effect.obj.version)
    ensures forall m | m in w.specs && m != p.name :: Latest(next, m) == Latest(w, m)
  {
    PersistedLast(w.stored[p.name], p.seen, effect.obj, p.status, p.patch);
  }

  /** If no other schema references it, everything stays settled. */
  lemma TornStaysSettled(w: World, p: Pass, next: World)
    requires TearsOnOldReads(w, p) && Next(w, p) == Some(next)
    requires forall m | m in w.specs :: p.name !in Locals(w.specs[m].references)
    ensures AllSettled(next)
  {
    NextKeepsValid(w, p, next);
    EffectRegisters(w, w.specs[p.name], p);
    TornStores(w, p, Effect(w, w.specs[p.name], p), next);
    HalfStoredStaysSettled(w, p.name, Effect(w, w.specs[p.name], p).obj, next);
  }

  lemma HalfStoredStaysSettled(w: World, n: Name, o: Object, next: World)
    requires AllSettled(w) && KafkaSchemas.Valid(next) && n in w.specs
    requires next.specs == w.specs && w.registry.subjects.Keys <= next.registry.subjects.Keys
    requires Latest(next, n) == Latest(w, n).(id := o.id, version := o.version)
    requires forall m | m in w.specs && m != n :: Latest(next, m) == Latest(w, m)
    requires forall m | m in w.specs :: n !in Locals(w.specs[m].references)
    ensures AllSettled(next)
  {
    forall m | m in next.specs
      ensures Settled(next, m)
    {
      StaysSettled(w, next, m);
    }
  }

  lemma StaysSettled(w: World, next: World, n: Name)
    requires Settled(w, n) && KafkaSchemas.Valid(next) && next.specs == w.specs
    requires w.registry.subjects.Keys <= next.registry.subjects.Keys
    requires var o := Latest(w, n); Latest(next, n) == o.(id := Latest(next, n).id, version := Latest(next, n).version)
    requires forall m | m in Locals(w.specs[n].references) && m in w.specs ::
             Latest(w, m).version == Latest(next, m).version
    ensures Settled(next, n)
  {
    ResolveDependsOnVersions(w, next, w.specs[n].references);
  }

  lemma TornIsHarmful(before: Object, p: Pass, after: Object)
    requires IsTorn(p) && before.fingerprint.Some? && after.fingerprint.Some?
    requires before.fingerprint != after.fingerprint
    requires before.fingerprint.value.level == after.fingerprint.value.level
    ensures !IsHarmless(before, p, after)
  {
  }

  lemma TornDoesNotTrack(w: World, p: Pass, next: World)
    requires AllTrack(w) && TearsOnOldReads(w, p) && Next(w, p) == Some(next)
    ensures KafkaSchemas.Valid(next) && next.specs == w.specs
    ensures !Tracks(next.registry, next.specs[p.name], Latest(next, p.name))
  {
    TrackedIsHeld(w);
    OldReadsRegister(w, p);
    NextTracksExactly(w, p, next, p.name);
    assert Settled(w, p.name);
    TornIsHarmful(Latest(w, p.name), p, Effect(w, w.specs[p.name], p).obj);
  }

  /** Without the condition on torn passes the claim is false: the schema is ready, nothing ever repairs it, and its
      version pins a reference to something else than the referent's current version. */
  lemma TornPassGoesUnnoticed(w: World, p: Pass, next: World)
    requires AllTrack(w) && TearsOnOldReads(w, p) && Next(w, p) == Some(next)
    requires forall m | m in w.specs :: p.name !in Locals(w.specs[m].references)
    ensures IsFixpoint(next) && AllSettled(next) && next.specs == w.specs && !ReferencesAreCurrent(next, p.name)
  {
    TornDoesNotTrack(w, p, next);
    TornStaysSettled(w, p, next);
    AllSettledIsFixpoint(next);
    SettledIsCurrentIfTracking(next, p.name);
  }

  // ---------------------------------------------------------------- such a state is reached

  /** One torn pass leads from here to there. */
  ghost predicate TearsTo(w: World, end: World) {
    exists p :: IsTorn(p) && Next(w, p) == Some(end)
  }

  lemma ReachedKeepsStates(w: World, end: World, n: Name)
    requires KafkaSchemas.Valid(w) && Reaches(w, end) && n in w.stored
    ensures KafkaSchemas.Valid(end) && n in end.stored && w.stored[n] <= end.stored[n]
    ensures Extends(end.registry, w.registry)
  {
    var passes :| Run(w, passes) == Some(end);
    RunKeepsStates(w, passes, end, n);
  }

  lemma {:induction false} RunKeepsStates(w: World, passes: seq<Pass>, end: World, n: Name)
    requires KafkaSchemas.Valid(w) && Run(w, passes) == Some(end) && n in w.stored
    ensures KafkaSchemas.Valid(end) && n in end.stored && w.stored[n] <= end.stored[n]
    ensures Extends(end.registry, w.registry)
    decreases |passes|
  {
    if passes != [] {
      var p, next := passes[0], Next(w, passes[0]).value;
      NextKeepsValid(w, p, next);
      EffectRegisters(w, w.specs[p.name], p);
      RunKeepsStates(next, passes[1..], end, n);
    }
  }

  /** Schema b references schema a and nothing else. */
  predicate AreTwoSchemas(specs: map<Name, Spec>, a: Name, b: Name) {
    && a != b && specs.Keys == {a, b}
    && specs[a].references == []
    && |specs[b].references| == 1 && specs[b].references[0].Local? && specs[b].references[0].schema == a
    && specs[a].level == specs[b].level == CompatibilityOverride.CLEARED
  }

  /** Two schemas, and the same with another content for a. */
  predicate IsEdited(specs: map<Name, Spec>, edited: map<Name, Spec>, a: Name, b: Name) {
    && AreTwoSchemas(specs, a, b)
    && a in edited && edited == specs[a := specs[a].(schema := edited[a].schema, generation := edited[a].generation)]
    && edited[a].schema != specs[a].schema
  }

  lemma TwoSchemasGraph(specs: map<Name, Spec>, a: Name, b: Name)
    requires AreTwoSchemas(specs, a, b)
    ensures Closed(References(specs)) && Acyclic(References(specs)) && |specs| == 2
  {
    assert |specs| == |specs.Keys| == |{a, b}|;
    assert References(specs)[b] == {a} by { assert specs[b].references[0].schema == a; }
    TwoSchemasAreAcyclic(References(specs), a, b);
  }

  predicate HasNoLevels(specs: map<Name, Spec>) {
    forall n | n in specs :: specs[n].level == CompatibilityOverride.CLEARED
  }

  lemma TwoLevels(specs: map<Name, Spec>, a: Name, b: Name)
    requires AreTwoSchemas(specs, a, b)
    ensures HasNoLevels(specs)
  {
  }

  lemma NobodyReferences(specs: map<Name, Spec>, a: Name, b: Name)
    requires AreTwoSchemas(specs, a, b)
    ensures forall m | m in specs :: b !in Locals(specs[m].references)
  {
  }

  lemma WithoutLevelsAllSettled(w: World, specs: map<Name, Spec>)
    requires KafkaSchemas.Valid(w) && w.specs == specs && Closed(References(specs)) && HasNoLevels(specs)
    requires forall n | n in specs :: Settled(w, n)
    ensures AllSettled(w)
  {
  }

  lemma SettledStateIsReached(w: World, a: Name, b: Name, sweeps: seq<seq<Name>>) returns (end: World)
    requires AllTrack(w) && AreTwoSchemas(w.specs, a, b)
    requires |sweeps| == 4 && forall s | s in sweeps :: IsFullSweep(w.specs, s)
    ensures Reaches(w, end) && end.specs == w.specs && AllTrack(end) && AllSettled(end)
    ensures AllCurrent(end)
  {
    TwoSchemasGraph(w.specs, a, b);
    TwoLevels(w.specs, a, b);
    end := ConvergedStateIsReached(w, sweeps);
    WithoutLevelsAllSettled(end, w.specs);
  }

  lemma EditKeepsTrack(w: World, edited: World, a: Name, b: Name)
    requires AllTrack(w) && IsEdited(w.specs, edited.specs, a, b) && edited == w.(specs := edited.specs)
    ensures AllTrack(edited) && AreTwoSchemas(edited.specs, a, b)
  {
    forall n | n in edited.specs
      ensures Tracks(edited.registry, edited.specs[n], Latest(edited, n))
    {
      assert Tracks(w.registry, w.specs[n], Latest(w, n));
    }
  }

  lemma ResolvesTo(w: World, a: Name, b: Name, view: View, version: nat)
    requires AreTwoSchemas(w.specs, a, b) && Read(w, view, a).Some? && Read(w, view, a).value.version == version >= 1
    ensures Resolve(w, w.specs[b].references, view) ==
            Some([ReferenceIn(w.specs[b].references[0].name, w.specs[a].subject, version)])
  {
    var references := w.specs[b].references;
    var one := ReferenceIn(references[0].name, w.specs[a].subject, version);
    assert ResolveOne(w, references[0], view) == Some(one);
    ResolveMeaning(w, references, view);
    assert Resolve(w, references, view).value == [one];
  }

  /** The version from before an edit is another one than the current one. */
  lemma VersionsDiffer(settled: World, again: World, a: Name)
    requires ReferencesAreCurrent(settled, a) && ReferencesAreCurrent(again, a)
    requires Extends(again.registry, settled.registry) && settled.specs[a].subject == again.specs[a].subject
    requires settled.specs[a].schema != again.specs[a].schema
    ensures Latest(settled, a).version != Latest(again, a).version
  {
    var subject, before, now := settled.specs[a].subject, Latest(settled, a).version, Latest(again, a).version;
    var x :| Holds(settled.registry, subject, before, x) && x.schema == settled.specs[a].schema;
    var y :| Holds(again.registry, subject, now, y) && y.schema == again.specs[a].schema;
    assert Holds(again.registry, subject, before, x);
    if before == now {
      OneContent(again.registry, subject, now, x, y);
    }
  }

  /** A pass on b that reads a as it once was. */
  function OldReadingPass(w: World, a: Name, b: Name, index: nat): Pass
    requires KafkaSchemas.Valid(w) && b in w.specs
  {
    var view := CurrentView(w)[a := index];
    Pass(b, |w.stored[b]| - 1, CurrentView(w), view, view, ALL_SUCCEED, Acknowledged, Rejected)
  }

  lemma FingerprintsDiffer(spec: Spec, one: ReferenceIn, other: ReferenceIn)
    requires one != other
    ensures FingerprintOf(spec, [one]) != FingerprintOf(spec, [other])
  {
    assert one in FingerprintOf(spec, [one]).references && one !in FingerprintOf(spec, [other]).references;
  }

  /** A stored state of a has a version that is not the current one. */
  ghost predicate HoldsOtherVersion(w: World, a: Name, index: nat) {
    && KafkaSchemas.Valid(w) && a in w.stored && index < |w.stored[a]|
    && 1 <= w.stored[a][index].version != Latest(w, a).version
  }

  lemma OldReadResolves(w: World, a: Name, b: Name, index: nat)
    requires KafkaSchemas.Valid(w) && AreTwoSchemas(w.specs, a, b) && Latest(w, a).version >= 1
    requires HoldsOtherVersion(w, a, index)
    ensures var refs := Resolve(w, w.specs[b].references, CurrentView(w)[a := index]);
            && refs.Some? && Desired(w, b).Some?
            && FingerprintOf(w.specs[b], refs.value) != FingerprintOf(w.specs[b], Desired(w, b).value)
  {
    var before, now := w.stored[a][index].version, Latest(w, a).version;
    ResolvesTo(w, a, b, CurrentView(w)[a := index], before);
    ResolvesTo(w, a, b, CurrentView(w), now);
    var name, subject := w.specs[b].references[0].name, w.specs[a].subject;
    FingerprintsDiffer(w.specs[b], ReferenceIn(name, subject, before), ReferenceIn(name, subject, now));
  }

  lemma OldReadingPassTears(w: World, a: Name, b: Name, index: nat) returns (p: Pass)
    requires AllSettled(w) && AreTwoSchemas(w.specs, a, b)
    requires HoldsOtherVersion(w, a, index)
    ensures TearsOnOldReads(w, p) && p.name == b
  {
    SettledHasVersion(w, a);
    OldReadResolves(w, a, b, index);
    p := OldReadingPass(w, a, b, index);
  }

  lemma EndOfTear(w: World, p: Pass) returns (end: World)
    requires AllTrack(w) && TearsOnOldReads(w, p)
    requires forall m | m in w.specs :: p.name !in Locals(w.specs[m].references)
    ensures TearsTo(w, end) && end.specs == w.specs
    ensures IsFixpoint(end) && AllSettled(end) && !ReferencesAreCurrent(end, p.name)
  {
    var next := NextIsPossible(w, p);
    TornPassGoesUnnoticed(w, p, next);
    end := next;
  }

  lemma NextIsPossible(w: World, p: Pass) returns (next: World)
    requires KafkaSchemas.Valid(w) && p.name in w.specs && p.seen < |w.stored[p.name]|
    ensures Next(w, p) == Some(next)
  {
    next := Next(w, p).value;
  }

  lemma OldVersionIsStored(settled: World, again: World, a: Name, b: Name) returns (index: nat)
    requires Settled(settled, a) && ReferencesAreCurrent(settled, a) && ReferencesAreCurrent(again, a)
    requires settled.stored[a] <= again.stored[a] && Extends(again.registry, settled.registry)
    requires IsEdited(settled.specs, again.specs, a, b)
    ensures HoldsOtherVersion(again, a, index)
  {
    VersionsDiffer(settled, again, a);
    SettledHasVersion(settled, a);
    index := |settled.stored[a]| - 1;
    assert again.stored[a][index] == Latest(settled, a);
  }

  lemma TearIsPossible(w: World, a: Name, b: Name, index: nat) returns (end: World)
    requires AllTrack(w) && AllSettled(w) && AreTwoSchemas(w.specs, a, b) && HoldsOtherVersion(w, a, index)
    ensures TearsTo(w, end) && end.specs == w.specs
    ensures IsFixpoint(end) && AllSettled(end) && !ReferencesAreCurrent(end, b)
  {
    var p := OldReadingPassTears(w, a, b, index);
    NobodyReferences(w.specs, a, b);
    end := EndOfTear(w, p);
  }

  /** From every start with two schemas, for every edit of the first: a run without faults, the edit, another run
      without faults, and one torn pass that still reads the referent from before the edit lead to a state that no
      pass changes, with every schema ready and a stale reference. */
  lemma StaleFixpointIsReached(start: World, specs: map<Name, Spec>, a: Name, b: Name, sweeps: seq<seq<Name>>)
    returns (settled: World, again: World, end: World)
    requires AllTrack(start) && IsEdited(start.specs, specs, a, b)
    requires |sweeps| == 4 && forall s | s in sweeps :: IsFullSweep(start.specs, s)
    ensures Reaches(start, settled) && Reaches(settled.(specs := specs), again) && TearsTo(again, end)
    ensures IsFixpoint(end) && AllSettled(end) && Acyclic(References(end.specs))
    ensures b in end.specs && !ReferencesAreCurrent(end, b)
  {
    settled := SettledStateIsReached(start, a, b, sweeps);
    again, end := EditedAndTorn(settled, specs, a, b, sweeps);
    EditedIsAcyclic(start.specs, specs, a, b);
  }

  lemma EditedIsAcyclic(specs: map<Name, Spec>, edited: map<Name, Spec>, a: Name, b: Name)
    requires IsEdited(specs, edited, a, b)
    ensures Acyclic(References(edited))
  {
    TwoSchemasGraph(edited, a, b);
  }

  lemma EditedAndTorn(settled: World, specs: map<Name, Spec>, a: Name, b: Name, sweeps: seq<seq<Name>>)
    returns (again: World, end: World)
    requires AllTrack(settled) && AllSettled(settled) && AllCurrent(settled) && IsEdited(settled.specs, specs, a, b)
    requires |sweeps| == 4 && forall s | s in sweeps :: IsFullSweep(settled.specs, s)
    ensures Reaches(settled.(specs := specs), again) && TearsTo(again, end) && end.specs == specs
    ensures IsFixpoint(end) && AllSettled(end) && !ReferencesAreCurrent(end, b)
  {
    again := EditedSettlesAgain(settled, specs, a, b, sweeps);
    assert ReferencesAreCurrent(settled, a) && ReferencesAreCurrent(again, a);
    var index := OldVersionIsStored(settled, again, a, b);
    end := TearIsPossible(again, a, b, index);
  }

  lemma EditedSettlesAgain(settled: World, specs: map<Name, Spec>, a: Name, b: Name, sweeps: seq<seq<Name>>)
    returns (again: World)
    requires AllTrack(settled) && IsEdited(settled.specs, specs, a, b)
    requires |sweeps| == 4 && forall s | s in sweeps :: IsFullSweep(settled.specs, s)
    ensures Reaches(settled.(specs := specs), again) && again.specs == specs && AreTwoSchemas(specs, a, b)
    ensures AllTrack(again) && AllSettled(again) && AllCurrent(again)
    ensures settled.stored[a] <= again.stored[a] && Extends(again.registry, settled.registry)
  {
    var edited := settled.(specs := specs);
    EditKeepsTrack(settled, edited, a, b);
    again := SettledStateIsReached(edited, a, b, sweeps);
    ReachedKeepsStates(edited, again, a);
  }

  const UNTOUCHED := Object(None, false, None, None, 0, 0)

  /** There is such a start, with nothing registered. */
  lemma SuchAStart() returns (start: World, specs: map<Name, Spec>, sweeps: seq<seq<Name>>)
    ensures Unregistered(start) && AllTrack(start) && IsEdited(start.specs, specs, "a", "b")
    ensures |sweeps| == 4 && forall s | s in sweeps :: IsFullSweep(start.specs, s)
  {
    var a, b := Spec("A", "old", "JSON", "", [], 1), Spec("B", "b", "JSON", "", [Local("a.json", "a")], 1);
    start := World(map["a" := a, "b" := b], map["a" := [UNTOUCHED], "b" := [UNTOUCHED]],
                   Registry([], map[]), map[], "NONE", []);
    specs := start.specs["a" := a.(schema := "new", generation := 2)];
    assert ValidStates(start.stored["a"]) && ValidStates(start.stored["b"]);
    assert "a"[0] != "b"[0] && "old"[0] != "new"[0];
    var sweep := ["a", "b"];
    assert sweep[0] == "a" && sweep[1] == "b";
    sweeps := [sweep, sweep, sweep, sweep];
  }

  // ---------------------------------------------------------------- two schemas

  lemma TwoSchemasStep(g: Graph, chain: seq<Name>, i: nat, a: Name, b: Name)
    requires g.Keys == {a, b} && g[b] == {a} && a !in g[a] && b !in g[a]
    requires IsChain(g, chain) && i < |chain| - 1
    ensures chain[i] == b && chain[i + 1] == a
  {
    assert chain[i] in g && chain[i + 1] in g && chain[i + 1] in g[chain[i]];
  }

  lemma TwoSchemasAreAcyclic(g: Graph, a: Name, b: Name)
    requires g.Keys == {a, b} && a != b && g[b] == {a} && a !in g[a] && b !in g[a]
    ensures Acyclic(g)
  {
    forall chain
      ensures !IsCycle(g, chain)
    {
      if |chain| >= 2 && IsChain(g, chain) {
        TwoSchemasStep(g, chain, 0, a, b);
        TwoSchemasStep(g, chain, |chain| - 2, a, b);
      }
    }
  }

  // ---------------------------------------------------------------- a schema that is missing

  /** Schema a now references a schema that does not exist, and nothing else. */
  predicate IsDangling(specs: map<Name, Spec>, dangling: map<Name, Spec>, a: Name) {
    && a in specs && a in dangling
    && dangling == specs[a := specs[a].(references := dangling[a].references, generation := dangling[a].generation)]
    && |dangling[a].references| == 1 && dangling[a].references[0].Local?
    && dangling[a].references[0].schema !in specs
  }

  /** Every two schemas have such an edit. */
  lemma SuchAnEdit(specs: map<Name, Spec>, a: Name, b: Name) returns (dangling: map<Name, Spec>)
    requires AreTwoSchemas(specs, a, b)
    ensures IsDangling(specs, dangling, a)
  {
    var missing := a + b + "?";
    assert |missing| > |a| && |missing| > |b|;
    dangling := specs[a := specs[a].(references := [Local("", missing)])];
  }

  lemma DanglingGraph(specs: map<Name, Spec>, dangling: map<Name, Spec>, a: Name, b: Name)
    requires AreTwoSchemas(specs, a, b) && IsDangling(specs, dangling, a)
    ensures Acyclic(References(dangling)) && !Closed(References(dangling))
  {
    var g, missing := References(dangling), dangling[a].references[0].schema;
    assert missing in g[a] && missing !in g;
    assert g[a] == {missing};
    assert g[b] == {a} by { assert dangling[b].references[0].schema == a; }
    TwoSchemasAreAcyclic(g, a, b);
  }

  /** With another spec of the same subject, a version tracks what it tracked. */
  lemma OtherSpecTracks(w: World, edited: World, a: Name)
    requires AllTrack(w) && a in w.specs && a in edited.specs && edited == w.(specs := w.specs[a := edited.specs[a]])
    requires edited.specs[a].subject == w.specs[a].subject
    ensures AllTrack(edited)
  {
    forall n | n in edited.specs
      ensures Tracks(edited.registry, edited.specs[n], Latest(edited, n))
    {
      assert Tracks(w.registry, w.specs[n], Latest(w, n));
    }
  }

  /** A clean pass on the edited schema registers the new content, and does not make it ready yet. */
  lemma EditIsRegistered(settled: World, edited: World, a: Name, b: Name)
    requires AllTrack(settled) && Settled(settled, a) && ReferencesAreCurrent(settled, a)
    requires IsEdited(settled.specs, edited.specs, a, b) && edited == settled.(specs := edited.specs)
    ensures AllTrack(edited) && AllTrack(Cleanly(edited, a)) && Extends(Cleanly(edited, a).registry, settled.registry)
    ensures Latest(Cleanly(edited, a), b) == Latest(settled, b) && !Latest(Cleanly(edited, a), a).running
    ensures 1 <= Latest(Cleanly(edited, a), a).version != Latest(settled, a).version
  {
    EditKeepsTrack(settled, edited, a, b);
    TrackedIsHeld(edited);
    assert GateIsOpen(edited, a) && Desired(edited, a) == Some([]);
    assert !Registered(edited, a);
    UnregisteredIsApplied(edited, a);
    OpenGatePassIsCurrent(edited, a);
    UntornPassTracks(edited, CleanPass(edited, a), Cleanly(edited, a));
    RegistryOnlyGrows(edited, a);
    CleanStores(edited, a);
    VersionsDiffer(settled, Cleanly(edited, a), a);
  }

  /** The gate of b is shut by a schema that is not ready, and that of a by one that does not exist. */
  lemma BothGatesAreShut(w: World, specs: map<Name, Spec>, a: Name, b: Name)
    requires KafkaSchemas.Valid(w) && AreTwoSchemas(specs, a, b) && IsDangling(specs, w.specs, a)
    requires !Latest(w, a).running
    ensures IsFixpoint(w)
  {
    assert !GateIsOpen(w, a) by { assert w.specs[a].references[0].Local?; }
    assert !GateIsOpen(w, b) by { assert w.specs[b].references[0].Local?; }
    forall n | n in w.specs
      ensures LeavesAlone(w, n)
    {
      ShutGateChangesNothing(w, n);
    }
  }

  /** A version that pins the referent's former version is not current, whatever has been registered since. */
  lemma FormerVersionIsStale(settled: World, w: World, a: Name, b: Name)
    requires ReferencesAreCurrent(settled, b) && AreTwoSchemas(settled.specs, a, b)
    requires KafkaSchemas.Valid(w) && w.specs.Keys == settled.specs.Keys && w.specs[b] == settled.specs[b]
    requires w.specs[a].subject == settled.specs[a].subject && Extends(w.registry, settled.registry)
    requires Latest(w, b) == Latest(settled, b) && Latest(w, a).version != Latest(settled, a).version
    ensures !ReferencesAreCurrent(w, b)
  {
    var reference := settled.specs[b].references[0];
    var held := CurrentReferences(settled, b, 0);
    var former := ReferenceIn(reference.name, settled.specs[a].subject, Latest(settled, a).version);
    assert Holds(w.registry, w.specs[b].subject, Latest(w, b).version, held) && former in held.references;
    if ReferencesAreCurrent(w, b) {
      OneReference(w, a, b, held, former);
      assert false;
    }
  }

  lemma OneReference(w: World, a: Name, b: Name, held: Content, one: ReferenceIn)
    requires ReferencesAreCurrent(w, b) && w.specs.Keys == {a, b} && |w.specs[b].references| == 1
    requires w.specs[b].references[0].Local? && w.specs[b].references[0].schema == a
    requires Holds(w.registry, w.specs[b].subject, Latest(w, b).version, held) && one in held.references
    ensures one.version == Latest(w, a).version
  {
    var spec, refs := w.specs[b], Desired(w, b).value;
    var content :|
      Holds(w.registry, spec.subject, Latest(w, b).version, content) && IsContentOf(content, FingerprintOf(spec, refs));
    OneContent(w.registry, spec.subject, Latest(w, b).version, held, content);
    ResolveMeaning(w, spec.references, CurrentView(w));
    assert Some(refs[0]) == ResolveOne(w, spec.references[0], CurrentView(w)) && |refs| == 1;
    assert one in FingerprintOf(spec, refs).references;
  }

  lemma CleanPassReaches(w: World, n: Name)
    requires KafkaSchemas.Valid(w) && n in w.specs
    ensures Reaches(w, Cleanly(w, n))
  {
    var p := CleanPass(w, n);
    assert Run(w, [p]) == Run(Cleanly(w, n), []) by { assert [p][1..] == []; }
  }

  /** So without the condition on missing schemas the claim is false, too. From every start with two schemas, for every
      edit of the first: a run without faults, the edit, one more pass without faults, and then an edit that makes the
      first schema reference a missing one lead to a state that no pass changes. Every version holds what its
      fingerprint says, and the second schema is registered with a version of the first that is not its current one. */
  lemma ShutGatesHideAStaleReference(
    start: World, specs: map<Name, Spec>, dangling: map<Name, Spec>, a: Name, b: Name, sweeps: seq<seq<Name>>)
    returns (settled: World, mid: World, end: World)
    requires AllTrack(start) && IsEdited(start.specs, specs, a, b) && IsDangling(specs, dangling, a)
    requires |sweeps| == 4 && forall s | s in sweeps :: IsFullSweep(start.specs, s)
    ensures Reaches(start, settled) && Reaches(settled.(specs := specs), mid) && end == mid.(specs := dangling)
    ensures IsFixpoint(end) && AllTrack(end) && Acyclic(References(dangling)) && !Closed(References(dangling))
    ensures b in end.specs && Latest(end, b).fingerprint.Some? && !ReferencesAreCurrent(end, b)
  {
    DanglingGraph(specs, dangling, a, b);
    settled, mid, end := SettledAndEditedTwice(start, specs, dangling, a, b, sweeps);
  }

  lemma SettledAndEditedTwice(
    start: World, specs: map<Name, Spec>, dangling: map<Name, Spec>, a: Name, b: Name, sweeps: seq<seq<Name>>)
    returns (settled: World, mid: World, end: World)
    requires AllTrack(start) && IsEdited(start.specs, specs, a, b) && IsDangling(specs, dangling, a)
    requires |sweeps| == 4 && forall s | s in sweeps :: IsFullSweep(start.specs, s)
    ensures Reaches(start, settled) && Reaches(settled.(specs := specs), mid) && end == mid.(specs := dangling)
    ensures IsFixpoint(end) && AllTrack(end)
    ensures b in end.specs && Latest(end, b).fingerprint.Some? && !ReferencesAreCurrent(end, b)
  {
    settled := SettledStateIsReached(start, a, b, sweeps);
    mid, end := EditedTwice(settled, specs, dangling, a, b);
  }

  lemma EditedTwice(settled: World, specs: map<Name, Spec>, dangling: map<Name, Spec>, a: Name, b: Name)
    returns (mid: World, end: World)
    requires AllTrack(settled) && AllSettled(settled) && AllCurrent(settled)
    requires IsEdited(settled.specs, specs, a, b) && IsDangling(specs, dangling, a)
    ensures Reaches(settled.(specs := specs), mid) && end == mid.(specs := dangling)
    ensures IsFixpoint(end) && AllTrack(end)
    ensures b in end.specs && Latest(end, b).fingerprint.Some? && !ReferencesAreCurrent(end, b)
  {
    assert Settled(settled, a) && ReferencesAreCurrent(settled, a) && ReferencesAreCurrent(settled, b);
    mid := RegisterEdit(settled, specs, a, b);
    end := mid.(specs := dangling);
    assert Latest(settled, b).fingerprint.Some? by { assert Settled(settled, b); }
    Dangles(settled, mid, end, a, b);
  }

  lemma EditsKeep(specs: map<Name, Spec>, edited: map<Name, Spec>, dangling: map<Name, Spec>, a: Name, b: Name)
    requires IsEdited(specs, edited, a, b) && IsDangling(edited, dangling, a)
    ensures AreTwoSchemas(specs, a, b) && AreTwoSchemas(edited, a, b) && dangling.Keys == edited.Keys == specs.Keys
    ensures dangling == edited[a := dangling[a]] && dangling[b] == specs[b]
    ensures dangling[a].subject == edited[a].subject == specs[a].subject
  {
  }

  lemma Dangles(settled: World, mid: World, end: World, a: Name, b: Name)
    requires ReferencesAreCurrent(settled, b) && ReferencesAreCurrent(settled, a)
    requires IsEdited(settled.specs, mid.specs, a, b) && IsDangling(mid.specs, end.specs, a)
    requires AllTrack(mid) && Extends(mid.registry, settled.registry) && end == mid.(specs := end.specs)
    requires Latest(mid, b) == Latest(settled, b) && !Latest(mid, a).running
    requires Latest(mid, a).version != Latest(settled, a).version
    ensures IsFixpoint(end) && AllTrack(end) && Latest(end, b) == Latest(settled, b) && !ReferencesAreCurrent(end, b)
  {
    EditsKeep(settled.specs, mid.specs, end.specs, a, b);
    OtherSpecTracks(mid, end, a);
    BothGatesAreShut(end, mid.specs, a, b);
    FormerVersionIsStale(settled, end, a, b);
  }

  lemma RegisterEdit(settled: World, specs: map<Name, Spec>, a: Name, b: Name) returns (mid: World)
    requires AllTrack(settled) && Settled(settled, a) && ReferencesAreCurrent(settled, a)
    requires IsEdited(settled.specs, specs, a, b)
    ensures Reaches(settled.(specs := specs), mid) && mid.specs == specs && AreTwoSchemas(specs, a, b)
    ensures AllTrack(mid) && Extends(mid.registry, settled.registry)
    ensures Latest(mid, b) == Latest(settled, b) && !Latest(mid, a).running
    ensures 1 <= Latest(mid, a).version != Latest(settled, a).version
  {
    var edited := settled.(specs := specs);
    EditIsRegistered(settled, edited, a, b);
    CleanPassReaches(edited, a);
    mid := Cleanly(edited, a);
  }
}
