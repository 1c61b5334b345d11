/** KafkaSchema objects that reference each other, and the passes that register them.

    One worker runs the passes one after another. A pass may read any earlier stored state of its own
    object and of the objects it references; each of its calls may fail, or report a failure although it was
    applied; and it may end after any of them, which is the same as a failure of the next one. Specs are fixed. */
module KafkaSchemas {
  import opened Base
  import opened SchemaGraph
  import opened SchemaRegistry
  import CompatibilityOverride

  datatype Reference =
    | Pinned(name: string, subject: string, version: nat)
    | Local(name: string, schema: Name)

  datatype Spec = Spec(
    subject: string, schema: string, schemaType: string,
    level: CompatibilityOverride.Level, references: seq<Reference>, generation: nat)

  /** Sorting the references by their unique names is taken as a canonical form of their set, and the hash as
      injective. */
  datatype Fingerprint = Fingerprint(
    schema: string, schemaType: string, level: CompatibilityOverride.Level, references: set<ReferenceIn>)

  /** The annotations and the status of a KafkaSchema, as far as the operator writes them. */
  datatype Object = Object(
    processed: Option<nat>, running: bool, fingerprint: Option<Fingerprint>,
    compatibility: Option<CompatibilityOverride.Level>, id: nat, version: nat)

  /** stored holds every stored state of each object, the current one last. order is history: the
      schemas in the order in which their first registration took effect. */
  datatype World = World(
    specs: map<Name, Spec>, stored: map<Name, seq<Object>>,
    registry: Registry, overrides: map<string, CompatibilityOverride.Level>, global: CompatibilityOverride.Level,
    order: seq<Name>)

  // ---------------------------------------------------------------- specs

  function Locals(references: seq<Reference>): set<Name> {
    set i | 0 <= i < |references| && references[i].Local? :: references[i].schema
  }

  function References(specs: map<Name, Spec>): Graph {
    map n | n in specs :: Locals(specs[n].references)
  }

  function FingerprintOf(spec: Spec, refs: seq<ReferenceIn>): Fingerprint {
    Fingerprint(spec.schema, spec.schemaType, spec.level, set r | r in refs)
  }

  function ContentOf(spec: Spec, refs: seq<ReferenceIn>): Content {
    Content(spec.schema, spec.schemaType, refs)
  }

  /** A fingerprint tells specs apart in everything that is registered, the order of references aside. */
  lemma FingerprintTellsApart(a: Spec, refs: seq<ReferenceIn>, b: Spec, refs': seq<ReferenceIn>)
    ensures FingerprintOf(a, refs) == FingerprintOf(b, refs') <==>
            && a.schema == b.schema && a.schemaType == b.schemaType && a.level == b.level
            && forall r :: r in refs <==> r in refs'
  {
    assert FingerprintOf(a, refs).references == FingerprintOf(b, refs').references <==> forall r :: r in refs <==>
           r in refs' by {
      if forall r :: r in refs <==> r in refs' {
        assert FingerprintOf(a, refs).references == FingerprintOf(b, refs').references;
      }
      if FingerprintOf(a, refs).references == FingerprintOf(b, refs').references {
        forall r
          ensures r in refs <==> r in refs'
        {
          assert r in refs <==> r in FingerprintOf(a, refs).references;
          assert r in refs' <==> r in FingerprintOf(b, refs').references;
        }
      }
    }
  }

  predicate IsReadyToUse(spec: Spec, o: Object) {
    o.running && o.processed == Some(spec.generation)
  }

  function Completed(spec: Spec, o: Object): Object {
    o.(processed := Some(spec.generation))
  }

  // ---------------------------------------------------------------- one pass

  /** For each object, which of its stored states a read returns; an object that is missing here is not found. */
  type View = map<Name, nat>

  datatype Calls = Calls(operational: bool, list: bool, config: CompatibilityOverride.Calls, post: Fate, lookup: bool)

  datatype Pass = Pass(
    name: Name, seen: nat, gate: View, observe: View, apply: View, calls: Calls, status: Fate, patch: Fate)

  function Read(w: World, view: View, n: Name): Option<Object> {
    if n in w.specs && n in w.stored && n in view && view[n] < |w.stored[n]| then Some(w.stored[n][view[n]]) else None
  }

  /** Every referenced schema exists and is ready. */
  predicate GateOpen(w: World, references: seq<Reference>, view: View) {
    forall i | 0 <= i < |references| && references[i].Local? ::
      Read(w, view, references[i].schema).Some? &&
      IsReadyToUse(w.specs[references[i].schema], Read(w, view, references[i].schema).value)
  }

  function ResolveOne(w: World, reference: Reference, view: View): Option<ReferenceIn> {
    match reference
    case Pinned(name, subject, version) => Some(ReferenceIn(name, subject, version))
    case Local(name, schema) =>
      match Read(w, view, schema)
      case None => None
      case Some(o) => if o.version == 0 then None else Some(ReferenceIn(name, w.specs[schema].subject, o.version))
  }

  function Resolve(w: World, references: seq<Reference>, view: View): Option<seq<ReferenceIn>> {
    if references == [] then Some([])
    else
      var front := Resolve(w, references[..|references| - 1], view);
      var last := ResolveOne(w, references[|references| - 1], view);
      if front.None? || last.None? then None else Some(front.value + [last.value])
  }

  /** Resolving is all or nothing, reference by reference. */
  lemma {:induction false} ResolveMeaning(w: World, references: seq<Reference>, view: View)
    ensures Resolve(w, references, view).Some? <==>
            forall i | 0 <= i < |references| :: ResolveOne(w, references[i], view).Some?
    ensures Resolve(w, references, view).Some? ==>
              var refs := Resolve(w, references, view).value;
              && |refs| == |references|
              && forall i | 0 <= i < |references| :: Some(refs[i]) == ResolveOne(w, references[i], view)
    // A pinned reference stays as it is; a local one needs a referent that is found with a version.
    ensures Resolve(w, references, view).Some? <==>
            forall i | 0 <= i < |references| && references[i].Local? ::
              Read(w, view, references[i].schema).Some? && Read(w, view, references[i].schema).value.version >= 1
    ensures Resolve(w, references, view).Some? ==>
              var refs := Resolve(w, references, view).value;
              && |refs| == |references|
              && forall i | 0 <= i < |references| ::
                   refs[i] == if references[i].Pinned?
                              then ReferenceIn(references[i].name, references[i].subject, references[i].version)
                              else ReferenceIn(references[i].name, w.specs[references[i].schema].subject,
                                               Read(w, view, references[i].schema).value.version)
    decreases |references|
  {
    if references != [] {
      var front := references[..|references| - 1];
      ResolveMeaning(w, front, view);
      assert forall i | 0 <= i < |front| :: front[i] == references[i];
    }
  }

  datatype Verdict = Stop | ToCreate | ToUpdate | UpToDate

  datatype Observed = Observed(obj: Object, verdict: Verdict)

  function Backfilled(spec: Spec, o: Object): Object {
    if spec.level != CompatibilityOverride.CLEARED && o.compatibility.None?
    then o.(compatibility := Some(spec.level))
    else o
  }

  function Observe(w: World, spec: Spec, o: Object, view: View, calls: Calls): Observed {
    if !calls.operational || !calls.list then Observed(o, Stop)
    else if spec.subject !in w.registry.subjects then Observed(o, ToCreate)
    else
      match Resolve(w, spec.references, view)
      case None => Observed(o, Stop)
      case Some(refs) =>
        if o.fingerprint != Some(FingerprintOf(spec, refs)) then Observed(o, ToUpdate)
        else
          var verdict := if o.processed == Some(spec.generation) then UpToDate else ToUpdate;
          Observed(Backfilled(spec, o).(running := true), verdict)
  }

  datatype Applied = Applied(
    registry: Registry, config: CompatibilityOverride.Config, obj: Object, posted: bool, ok: bool)

  function ConfigOf(w: World, subject: string): CompatibilityOverride.Config {
    CompatibilityOverride.Config(if subject in w.overrides then Some(w.overrides[subject]) else None, w.global)
  }

  /** The content is posted, and then looked up under the id that the post returned. */
  function PostContent(
    registry: Registry, spec: Spec, o: Object, refs: seq<ReferenceIn>, config: CompatibilityOverride.Config,
    calls: Calls): Applied
  {
    var posted := Post(registry, spec.subject, ContentOf(spec, refs));
    if !calls.post.Acknowledged? || !calls.lookup then
      Applied(if calls.post.Applied() then posted else registry, config, o, calls.post.Applied(), false)
    else
      var id := IdOf(posted.contents, ContentOf(spec, refs));
      var version := VersionOf(Versions(posted, spec.subject), id);
      Applied(posted, config, o.(id := id, version := version, fingerprint := Some(FingerprintOf(spec, refs))), true,
              true)
  }

  function ApplySchema(w: World, spec: Spec, o: Object, view: View, calls: Calls): Applied {
    var before := ConfigOf(w, spec.subject);
    match Resolve(w, spec.references, view)
    case None => Applied(w.registry, before, o, false, false)
    case Some(refs) =>
      var config := CompatibilityOverride.Apply(spec.level, o.compatibility, before, calls.config);
      var owned := o.(compatibility := config.recorded);
      if !config.ok then Applied(w.registry, config.config, owned, false, false)
      else PostContent(w.registry, spec, owned, refs, config.config, calls)
  }

  function Append(states: seq<Object>, o: Object): seq<Object>
    requires states != []
  {
    if states[|states| - 1] == o then states else states + [o]
  }

  /** The status is written first, against the version that was read, and the annotations after it. */
  function Persist(states: seq<Object>, seen: nat, o: Object, status: Fate, patch: Fate): (states': seq<Object>)
    requires seen < |states|
    ensures |states| <= |states'| <= |states| + 2 && states'[..|states|] == states
  {
    if seen != |states| - 1 || !status.Applied() then states
    else
      var half := Append(states, states[seen].(id := o.id, version := o.version));
      if status.Lost? || !patch.Applied() then half else Append(half, o)
  }

  /** The parts of a pass put together: gate, observation, and the apply that follows it. */
  function Outcome(spec: Spec, asBefore: Applied, gateOpen: bool, observed: Observed, applied: Applied): Applied {
    if !gateOpen then asBefore
    else
      match observed.verdict
      case Stop => asBefore.(obj := observed.obj)
      case UpToDate => asBefore.(obj := Completed(spec, observed.obj))
      case _ => if applied.ok then applied.(obj := Completed(spec, applied.obj)) else applied
  }

  /** What the pass does to the remote side, and the object it wants to store. */
  function Effect(w: World, spec: Spec, p: Pass): Applied
    requires p.name in w.stored && p.seen < |w.stored[p.name]|
  {
    var o := w.stored[p.name][p.seen];
    var observed := Observe(w, spec, o, p.observe, p.calls);
    Outcome(spec, Applied(w.registry, ConfigOf(w, spec.subject), o, false, true), GateOpen(w, spec.references, p.gate),
            observed, ApplySchema(w, spec, observed.obj.(running := false), p.apply, p.calls))
  }

  function WithOverride(
    overrides: map<string, CompatibilityOverride.Level>, subject: string, override: Option<CompatibilityOverride.Level>
  ): map<string, CompatibilityOverride.Level> {
    if override.Some? then overrides[subject := override.value] else overrides
  }

  /** The world after a pass with this effect. */
  function After(w: World, p: Pass, subject: string, effect: Applied): (w': World)
    requires p.name in w.stored && p.seen < |w.stored[p.name]|
  {
    w.(stored := w.stored[p.name := Persist(w.stored[p.name], p.seen, effect.obj, p.status, p.patch)],
       registry := effect.registry,
       overrides := WithOverride(w.overrides, subject, effect.config.override),
       order := if effect.posted && p.name !in w.order then w.order + [p.name] else w.order)
  }

  function Next(w: World, p: Pass): (next: Option<World>)
    ensures next.Some? <==> p.name in w.specs && p.name in w.stored && p.seen < |w.stored[p.name]|
  {
    if p.name !in w.specs || p.name !in w.stored || p.seen >= |w.stored[p.name]| then None
    else Some(After(w, p, w.specs[p.name].subject, Effect(w, w.specs[p.name], p)))
  }

  function Run(w: World, passes: seq<Pass>): Option<World>
    decreases |passes|
  {
    if passes == [] then Some(w)
    else
      match Next(w, passes[0])
      case None => None
      case Some(next) => Run(next, passes[1..])
  }

  ghost predicate Reaches(w: World, end: World) {
    exists passes :: Run(w, passes) == Some(end)
  }

  lemma {:induction false} RunAppend(w: World, first: seq<Pass>, second: seq<Pass>)
    ensures Run(w, first + second) == match Run(w, first) { case None => None case Some(mid) => Run(mid, second) }
    decreases |first|
  {
    if first == [] {
      assert first + second == second;
    } else {
      assert (first + second)[1..] == first[1..] + second;
      match Next(w, first[0]) {
        case None =>
        case Some(next) => RunAppend(next, first[1..], second);
      }
    }
  }

  // ---------------------------------------------------------------- what every pass keeps

  ghost predicate Valid(w: World) {
    && w.specs.Keys == w.stored.Keys
    && (forall n | n in w.stored :: ValidStates(w.stored[n]))
  }

  ghost predicate ValidStates(states: seq<Object>) {
    states != [] && forall i | 0 <= i < |states| :: states[i].fingerprint.Some? ==> states[i].version >= 1
  }

  /** The ways in which a pass can end: with the version of what it posted, or with version and fingerprint as it read
      them. */
  predicate EndsAs(w: World, spec: Spec, o: Object, refs: Option<seq<ReferenceIn>>, effect: Applied) {
    && (effect.posted ==> refs.Some?)
    && (effect.registry == w.registry ||
        (effect.posted && effect.registry == Post(w.registry, spec.subject, ContentOf(spec, refs.value))))
    && if effect.ok && effect.posted then
      && effect.registry == Post(w.registry, spec.subject, ContentOf(spec, refs.value))
      && effect.obj.fingerprint == Some(FingerprintOf(spec, refs.value))
      && effect.obj.version ==
         VersionOf(Versions(effect.registry, spec.subject), IdOf(effect.registry.contents, ContentOf(spec, refs.value)))
    else effect.obj.version == o.version && effect.obj.fingerprint == o.fingerprint
  }

  lemma ApplyEnds(w: World, spec: Spec, o: Object, view: View, calls: Calls)
    ensures EndsAs(w, spec, o, Resolve(w, spec.references, view), ApplySchema(w, spec, o, view, calls))
    ensures ApplySchema(w, spec, o, view, calls).ok ==> ApplySchema(w, spec, o, view, calls).posted
  {
  }

  lemma ObserveKeeps(w: World, spec: Spec, o: Object, view: View, calls: Calls)
    ensures var obj := Observe(w, spec, o, view, calls).obj;
            obj.version == o.version && obj.fingerprint == o.fingerprint
  {
  }

  lemma OutcomeEnds(
    w: World, spec: Spec, o: Object, refs: Option<seq<ReferenceIn>>, asBefore: Applied, gateOpen: bool,
    observed: Observed, applied: Applied)
    requires asBefore.registry == w.registry && asBefore.obj == o && !asBefore.posted
    requires observed.obj.version == o.version && observed.obj.fingerprint == o.fingerprint
    requires EndsAs(w, spec, o, refs, applied)
    ensures EndsAs(w, spec, o, refs, Outcome(spec, asBefore, gateOpen, observed, applied))
  {
  }

  lemma EffectEnds(w: World, spec: Spec, p: Pass)
    requires p.name in w.stored && p.seen < |w.stored[p.name]|
    ensures EndsAs(w, spec, w.stored[p.name][p.seen], Resolve(w, spec.references, p.apply), Effect(w, spec, p))
  {
    var o := w.stored[p.name][p.seen];
    var observed := Observe(w, spec, o, p.observe, p.calls);
    var unmarked := observed.obj.(running := false);
    ObserveKeeps(w, spec, o, p.observe, p.calls);
    ApplyEnds(w, spec, unmarked, p.apply, p.calls);
    OutcomeEnds(w, spec, o, Resolve(w, spec.references, p.apply),
                Applied(w.registry, ConfigOf(w, spec.subject), o, false, true), GateOpen(w, spec.references, p.gate),
                observed, ApplySchema(w, spec, unmarked, p.apply, p.calls));
  }

  lemma EndObject(w: World, spec: Spec, o: Object, refs: Option<seq<ReferenceIn>>, effect: Applied)
    requires EndsAs(w, spec, o, refs, effect)
    ensures || (effect.obj.version == o.version && effect.obj.fingerprint == o.fingerprint)
            || (effect.posted && effect.obj.version >= 1 && effect.obj.fingerprint.Some?)
  {
    if effect.posted {
      PostIsFound(w.registry, spec.subject, ContentOf(spec, refs.value));
    }
  }

  /** The compatibility level comes first: nothing is posted before the subject has the level of the spec, and the
      level stays when the post is refused. */
  lemma LevelComesFirst(w: World, spec: Spec, o: Object, view: View, calls: Calls)
    requires spec.level != CompatibilityOverride.CLEARED
    ensures var applied := ApplySchema(w, spec, o, view, calls);
            && (applied.posted ==>
                  applied.config.override == Some(spec.level) && applied.obj.compatibility == Some(spec.level))
            && (Resolve(w, spec.references, view).Some? && calls.config.put.Acknowledged? && calls.post.Rejected? ==>
                  applied.config.override == Some(spec.level) && applied.registry == w.registry && !applied.ok)
  {
  }

  /** A posted schema is given a version, together with its fingerprint or before it. */
  lemma EffectObject(w: World, spec: Spec, p: Pass)
    requires p.name in w.stored && p.seen < |w.stored[p.name]|
    ensures var o := w.stored[p.name][p.seen]; var effect := Effect(w, spec, p);
            || (effect.obj.version == o.version && effect.obj.fingerprint == o.fingerprint)
            || (effect.posted && effect.obj.version >= 1 && effect.obj.fingerprint.Some?)
    ensures Effect(w, spec, p).posted ==> Resolve(w, spec.references, p.apply).Some?
  {
    EffectEnds(w, spec, p);
    EndObject(w, spec, w.stored[p.name][p.seen], Resolve(w, spec.references, p.apply), Effect(w, spec, p));
  }

  lemma PersistedStates(states: seq<Object>, seen: nat, o: Object, status: Fate, patch: Fate, i: nat)
    requires seen < |states| && i < |Persist(states, seen, o, status, patch)|
    ensures var s := Persist(states, seen, o, status, patch)[i];
            || s in states || s == o
            || (s.version == o.version && s.fingerprint == states[seen].fingerprint)
  {
    if i < |states| {
      assert Persist(states, seen, o, status, patch)[..|states|][i] in states;
    }
  }

  lemma PersistKeepsValid(states: seq<Object>, seen: nat, o: Object, status: Fate, patch: Fate)
    requires ValidStates(states) && seen < |states|
    requires o.fingerprint.Some? ==> o.version >= 1
    requires o.version == states[seen].version || o.version >= 1
    ensures ValidStates(Persist(states, seen, o, status, patch))
  {
    var states' := Persist(states, seen, o, status, patch);
    forall i | 0 <= i < |states'|
      ensures states'[i].fingerprint.Some? ==> states'[i].version >= 1
    {
      PersistedStates(states, seen, o, status, patch, i);
    }
  }

  lemma NextKeepsValid(w: World, p: Pass, next: World)
    requires Valid(w) && Next(w, p) == Some(next)
    ensures Valid(next)
  {
    var n := p.name;
    EffectObject(w, w.specs[n], p);
    assert ValidStates(w.stored[n]);
    PersistKeepsValid(w.stored[n], p.seen, Effect(w, w.specs[n], p).obj, p.status, p.patch);
  }
}
