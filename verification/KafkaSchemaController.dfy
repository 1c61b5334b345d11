/** The KafkaSchema controller's pass, step by step on the object it holds, as a run of the machine. */
module KafkaSchemaController {
  import opened Base
  import opened SchemaGraph
  import opened SchemaRegistry
  import opened KafkaSchemas
  import CompatibilityOverride

  /** The copy of a KafkaSchema that a pass works on. */
  class SchemaObject {
    var processed: Option<nat>
    var running: bool
    var fingerprint: Option<Fingerprint>
    var compatibility: Option<CompatibilityOverride.Level>
    var id: nat
    var version: nat

    constructor (o: Object)
      ensures Value() == o
    {
      processed, running, fingerprint := o.processed, o.running, o.fingerprint;
      compatibility, id, version := o.compatibility, o.id, o.version;
    }

    function Value(): Object
      reads this
    {
      Object(processed, running, fingerprint, compatibility, id, version)
    }
  }

  // ---------------------------------------------------------------- looking up a version

  predicate Descending(s: seq<nat>) {
    forall i, j | 0 <= i < j < |s| :: s[i] >= s[j]
  }

  function Insert(s: seq<nat>, x: nat): seq<nat> {
    if s == [] || x >= s[0] then [x] + s else [s[0]] + Insert(s[1..], x)
  }

  function SortedDescending(s: seq<nat>): seq<nat> {
    if s == [] then [] else Insert(SortedDescending(s[1..]), s[0])
  }

  lemma {:induction false} InsertMeaning(s: seq<nat>, x: nat)
    requires Descending(s)
    ensures Descending(Insert(s, x)) && forall v :: v in Insert(s, x) <==> v == x || v in s
    decreases |s|
  {
    if s != [] && x < s[0] {
      InsertMeaning(s[1..], x);
      var rest := Insert(s[1..], x);
      assert forall y | y in s[1..] :: y <= s[0];
      assert forall j | 0 <= j < |rest| :: rest[j] in rest;
    }
  }

  lemma {:induction false} SortMeaning(s: seq<nat>)
    ensures Descending(SortedDescending(s)) && forall v :: v in SortedDescending(s) <==> v in s
    decreases |s|
  {
    if s != [] {
      SortMeaning(s[1..]);
      InsertMeaning(SortedDescending(s[1..]), s[0]);
    }
  }

  /** Gets the versions from the highest down until one holds the id. A version that cannot be read ends the search. The
      answer is the highest version that holds the id; there is none if nothing holds it, or if a version on the way
      down to it is not visible yet. */
  method LookupVersionForID(versions: seq<nat>, ids: map<nat, nat>, id: nat) returns (found: Option<nat>)
    ensures found.Some? ==>
              && found.value in versions && found.value in ids && ids[found.value] == id
              && forall v | v in versions && v > found.value :: v in ids && ids[v] != id
    ensures found.None? ==>
              || (forall v | v in versions :: v in ids && ids[v] != id)
              || exists hidden :: hidden in versions && hidden !in ids &&
                                  forall v | v in versions && v > hidden :: v in ids && ids[v] != id
  {
    var sorted := SortedDescending(versions);
    SortMeaning(versions);
    for i := 0 to |sorted|
      invariant forall j | 0 <= j < i :: sorted[j] in ids && ids[sorted[j]] != id
    {
      var v := sorted[i];
      assert v in sorted;
      if v !in ids {
        return None;
      }
      if ids[v] == id {
        return Some(v);
      }
    }
    found := None;
  }

  /** What the registry lists for a subject: versions 1 to n, each with its id. */
  function Listed(versions: seq<nat>): (ids: map<nat, nat>)
    ensures forall v :: v in ids <==> 1 <= v <= |versions|
    ensures forall v | v in ids :: ids[v] == versions[v - 1]
  {
    if versions == [] then map[]
    else Listed(versions[..|versions| - 1])[|versions| := versions[|versions| - 1]]
  }

  lemma ListedVersions(versions: seq<nat>, numbers: seq<nat>)
    requires numbers == seq(|versions|, i => i + 1)
    ensures forall v :: v in numbers <==> v in Listed(versions)
  {
    forall v | v in Listed(versions)
      ensures v in numbers
    {
      assert numbers[v - 1] == v;
    }
  }

  /** On a list without gaps the search finds the version that holds the id. */
  lemma LookupIsVersionOf(versions: seq<nat>, id: nat, found: Option<nat>)
    requires id in versions
    requires found.Some? ==>
               && found.value in Listed(versions) && Listed(versions)[found.value] == id
               && forall v | v in Listed(versions) && v > found.value :: Listed(versions)[v] != id
    requires found.None? ==> forall v | v in Listed(versions) :: Listed(versions)[v] != id
    ensures found == Some(VersionOf(versions, id))
  {
    VersionOfMeaning(versions, id);
    var v := VersionOf(versions, id);
    assert v in Listed(versions) && Listed(versions)[v] == id;
  }

  function WithConfig(w: World, subject: string, config: CompatibilityOverride.Config): World {
    w.(overrides := WithOverride(w.overrides, subject, config.override))
  }

  lemma ConfigRoundTrip(w: World, subject: string)
    ensures WithConfig(w, subject, ConfigOf(w, subject)) == w
  {
    if subject in w.overrides {
      assert w.overrides[subject := w.overrides[subject]] == w.overrides;
    }
  }

  lemma ResolvePrefix(w: World, references: seq<Reference>, view: View, i: nat)
    requires i < |references|
    ensures references[..i + 1][..i] == references[..i]
    ensures ResolveOne(w, references[i], view).None? ==> Resolve(w, references, view).None?
  {
    ResolveMeaning(w, references, view);
  }

  class Controller {
    var world: World

    constructor (world: World)
      ensures this.world == world
    {
      this.world := world;
    }

    method ResolveReferences(references: seq<Reference>, view: View) returns (refs: Option<seq<ReferenceIn>>)
      ensures refs == Resolve(world, references, view)
    {
      var out: seq<ReferenceIn> := [];
      for i := 0 to |references|
        invariant Resolve(world, references[..i], view) == Some(out)
      {
        var ref := references[i];
        ResolvePrefix(world, references, view, i);
        if ref.Pinned? {
          out := out + [ReferenceIn(ref.name, ref.subject, ref.version)];
        } else {
          var target := Read(world, view, ref.schema);
          if target.None? || target.value.version == 0 {
            return None;
          }
          out := out + [ReferenceIn(ref.name, world.specs[ref.schema].subject, target.value.version)];
        }
      }
      assert references[..|references|] == references;
      refs := Some(out);
    }

    method Observe(obj: SchemaObject, spec: Spec, view: View, calls: Calls) returns (verdict: Verdict)
      modifies obj
      ensures Observed(obj.Value(), verdict) == KafkaSchemas.Observe(world, spec, old(obj.Value()), view, calls)
    {
      if !calls.operational || !calls.list {
        return Stop;
      }
      if spec.subject !in world.registry.subjects {
        return ToCreate;
      }
      var refs := ResolveReferences(spec.references, view);
      if refs.None? {
        return Stop;
      }
      var desired := FingerprintOf(spec, refs.value);
      if obj.fingerprint == Some(desired) && spec.level != CompatibilityOverride.CLEARED && obj.compatibility.None? {
        obj.compatibility := Some(spec.level);
      }
      if obj.fingerprint != Some(desired) {
        return ToUpdate;
      }
      obj.running := true;
      verdict := if obj.processed == Some(spec.generation) then UpToDate else ToUpdate;
    }

    method PutCompatibilityLevel(subject: string, level: CompatibilityOverride.Level, fate: Fate) returns (ok: bool)
      modifies this
      ensures world == old(world).(
                         overrides := if fate.Applied() then old(world).overrides[subject := level]
                                      else old(world).overrides)
      ensures ok == fate.Acknowledged?
    {
      if fate.Applied() {
        world := world.(overrides := world.overrides[subject := level]);
      }
      ok := fate.Acknowledged?;
    }

    /** The override is written for a set field, and reverted for a cleared one if it is still what was recorded. */
    method ApplyCompatibilityLevel(obj: SchemaObject, spec: Spec, calls: CompatibilityOverride.Calls) returns (ok: bool)
      modifies this, obj
      ensures var before := ConfigOf(old(world), spec.subject);
              var applied := CompatibilityOverride.Apply(spec.level, old(obj.compatibility), before, calls);
              && ok == applied.ok && obj.Value() == old(obj.Value()).(compatibility := applied.recorded)
              && world == WithConfig(old(world), spec.subject, applied.config)
    {
      ConfigRoundTrip(world, spec.subject);
      if spec.level != CompatibilityOverride.CLEARED {
        ok := PutCompatibilityLevel(spec.subject, spec.level, calls.put);
        if ok {
          obj.compatibility := Some(spec.level);
        }
        return;
      }
      if obj.compatibility.None? {
        return true;
      }
      if calls.getFails {
        return false;
      }
      var override := ConfigOf(world, spec.subject).override;
      if override == obj.compatibility {
        if calls.globalFails {
          return false;
        }
        if override != Some(world.global) {
          ok := PutCompatibilityLevel(spec.subject, world.global, calls.put);
          if !ok {
            return;
          }
        }
      }
      obj.compatibility := None;
      ok := true;
    }

    /** The version of an id that has just been posted. */
    method FindVersion(subject: string, id: nat) returns (version: nat)
      requires id in Versions(world.registry, subject)
      ensures version == VersionOf(Versions(world.registry, subject), id)
    {
      var listed := Versions(world.registry, subject);
      var numbers := seq(|listed|, i => i + 1);
      ListedVersions(listed, numbers);
      var found := LookupVersionForID(numbers, Listed(listed), id);
      VersionOfMeaning(listed, id);
      LookupIsVersionOf(listed, id, found);
      version := found.value;
    }

    method PostSchema(obj: SchemaObject, spec: Spec, refs: seq<ReferenceIn>, calls: Calls)
      returns (ok: bool, posted: bool)
      modifies this, obj
      ensures var config := ConfigOf(old(world), spec.subject);
              var applied := PostContent(old(world).registry, spec, old(obj.Value()), refs, config, calls);
              && ok == applied.ok && posted == applied.posted && obj.Value() == applied.obj
              && world == old(world).(registry := applied.registry)
    {
      var content := ContentOf(spec, refs);
      posted := calls.post.Applied();
      if posted {
        world := world.(registry := Post(world.registry, spec.subject, content));
      }
      if !calls.post.Acknowledged? || !calls.lookup {
        return false, posted;
      }
      PostIsFound(old(world).registry, spec.subject, content);
      obj.id := IdOf(world.registry.contents, content);
      obj.version := FindVersion(spec.subject, obj.id);
      obj.fingerprint := Some(FingerprintOf(spec, refs));
      ok := true;
    }

    /** Level first, then the content, then the version under which it can be found. */
    method ApplySchema(obj: SchemaObject, spec: Spec, view: View, calls: Calls) returns (ok: bool, posted: bool)
      modifies this, obj
      ensures var applied := KafkaSchemas.ApplySchema(old(world), spec, old(obj.Value()), view, calls);
              && ok == applied.ok && posted == applied.posted && obj.Value() == applied.obj
              && world == WithConfig(old(world).(registry := applied.registry), spec.subject, applied.config)
    {
      posted := false;
      ConfigRoundTrip(world, spec.subject);
      var refs := ResolveReferences(spec.references, view);
      if refs.None? {
        return false, posted;
      }
      ok := ApplyCompatibilityLevel(obj, spec, calls.config);
      if !ok {
        return;
      }
      ok, posted := PostSchema(obj, spec, refs.value, calls);
    }

    /** One pass, from the gate to the write-back. */
    method Reconcile(p: Pass)
      requires Next(world, p).Some?
      modifies this
      ensures Next(old(world), p) == Some(world)
    {
      var spec := world.specs[p.name];
      var obj := new SchemaObject(world.stored[p.name][p.seen]);
      ConfigRoundTrip(world, spec.subject);
      var posted := false;
      if GateOpen(world, spec.references, p.gate) {
        var verdict := Observe(obj, spec, p.observe, p.calls);
        if verdict.UpToDate? {
          obj.processed := Some(spec.generation);
        } else if !verdict.Stop? {
          obj.running := false;
          var ok;
          ok, posted := ApplySchema(obj, spec, p.apply, p.calls);
          if ok {
            obj.processed := Some(spec.generation);
          }
        }
      }
      PersistReconcileState(obj, p, posted);
    }

    /** Status, then annotations; the history notes a first registration. */
    method PersistReconcileState(obj: SchemaObject, p: Pass, posted: bool)
      requires p.name in world.stored && p.seen < |world.stored[p.name]|
      modifies this
      ensures world == old(world).(
                         stored := old(world).stored[p.name :=
                                     Persist(old(world).stored[p.name], p.seen, obj.Value(), p.status, p.patch)],
                         order := if posted && p.name !in old(world).order then old(world).order + [p.name]
                                  else old(world).order)
    {
      var before := world.stored[p.name];
      if p.seen == |before| - 1 && p.status.Applied() {
        var half := Append(before, before[p.seen].(id := obj.id, version := obj.version));
        world := world.(stored := world.stored[p.name := half]);
        if p.status.Acknowledged? && p.patch.Applied() {
          world := world.(stored := world.stored[p.name := Append(half, obj.Value())]);
        }
      } else {
        assert world.stored[p.name := before] == world.stored;
      }
      if posted && p.name !in world.order {
        world := world.(order := world.order + [p.name]);
      }
    }
  }
}
