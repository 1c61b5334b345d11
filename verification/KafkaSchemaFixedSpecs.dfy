/** Runs in which no spec changes: every schema then has one content only that it can ever post.

    The referents of a schema are registered before it, each with the one version of its one content, so that what
    references resolve to is the same in every read that finds them. Torn passes do no harm here. */
module KafkaSchemaFixedSpecs {
  import opened Base
  import opened SchemaGraph
  import opened SchemaRegistry
  import opened KafkaSchemas
  import opened KafkaSchemaTracking
  import opened KafkaSchemaOrder

  /** The one version of each schema that has one. */
  type Pins = map<Name, nat>

  function PinOne(specs: map<Name, Spec>, reference: Reference, pins: Pins): Option<ReferenceIn> {
    match reference
    case Pinned(name, subject, version) => Some(ReferenceIn(name, subject, version))
    case Local(name, schema) =>
      if schema in pins && schema in specs then Some(ReferenceIn(name, specs[schema].subject, pins[schema])) else None
  }

  function PinAll(specs: map<Name, Spec>, references: seq<Reference>, pins: Pins): Option<seq<ReferenceIn>> {
    if references == [] then Some([])
    else
      var front := PinAll(specs, references[..|references| - 1], pins);
      var last := PinOne(specs, references[|references| - 1], pins);
      if front.None? || last.None? then None else Some(front.value + [last.value])
  }

  function PinsOf(specs: map<Name, Spec>, n: Name, pins: Pins): Option<seq<ReferenceIn>>
    requires n in specs
  {
    PinAll(specs, specs[n].references, pins)
  }

  /** A stored state has the pinned version or none, and the fingerprint of the pinned content or none. */
  ghost predicate IsPinned(specs: map<Name, Spec>, n: Name, o: Object, pins: Pins)
    requires n in specs
  {
    && (o.version != 0 ==> n in pins && o.version == pins[n])
    && (o.fingerprint.Some? ==>
          n in pins && PinsOf(specs, n, pins).Some? &&
          o.fingerprint == Some(FingerprintOf(specs[n], PinsOf(specs, n, pins).value)))
  }

  /** The pinned version holds the pinned content. */
  ghost predicate PinHolds(r: Registry, specs: map<Name, Spec>, n: Name, pins: Pins)
    requires n in pins
  {
    && n in specs && PinsOf(specs, n, pins).Some?
    && Holds(r, specs[n].subject, pins[n], ContentOf(specs[n], PinsOf(specs, n, pins).value))
  }

  ghost predicate StatesPinned(specs: map<Name, Spec>, n: Name, states: seq<Object>, pins: Pins)
    requires n in specs
  {
    forall i | 0 <= i < |states| :: IsPinned(specs, n, states[i], pins)
  }

  ghost predicate AllPinned(w: World, pins: Pins) {
    && KafkaSchemas.Valid(w) && SchemaRegistry.Valid(w.registry)
    && (forall n | n in w.stored :: StatesPinned(w.specs, n, w.stored[n], pins))
    && (forall n | n in pins :: PinHolds(w.registry, w.specs, n, pins))
  }

  /** What one schema needs of the pins. */
  ghost predicate PinSound(w: World, n: Name, pins: Pins)
    requires n in w.specs
  {
    SchemaRegistry.Valid(w.registry) && (n in pins ==> PinHolds(w.registry, w.specs, n, pins))
  }

  predicate Grows(later: Pins, earlier: Pins) {
    forall n | n in earlier :: n in later && later[n] == earlier[n]
  }

  lemma {:induction false} PinAllGrows(specs: map<Name, Spec>, references: seq<Reference>, later: Pins, earlier: Pins)
    requires Grows(later, earlier) && PinAll(specs, references, earlier).Some?
    ensures PinAll(specs, references, later) == PinAll(specs, references, earlier)
    decreases |references|
  {
    if references != [] {
      PinAllGrows(specs, references[..|references| - 1], later, earlier);
    }
  }

  /** Whatever versions of its referents a read finds, a schema resolves them to the same references. */
  lemma {:induction false} ResolveIsPinned(w: World, references: seq<Reference>, view: View, pins: Pins)
    requires AllPinned(w, pins) && Resolve(w, references, view).Some?
    ensures PinAll(w.specs, references, pins) == Resolve(w, references, view)
    decreases |references|
  {
    if references != [] {
      var last := references[|references| - 1];
      ResolveIsPinned(w, references[..|references| - 1], view, pins);
      if last.Local? {
        assert StatesPinned(w.specs, last.schema, w.stored[last.schema], pins);
        assert IsPinned(w.specs, last.schema, w.stored[last.schema][view[last.schema]], pins);
      }
    }
  }

  lemma IsPinnedGrows(specs: map<Name, Spec>, n: Name, o: Object, later: Pins, earlier: Pins)
    requires n in specs && Grows(later, earlier) && IsPinned(specs, n, o, earlier)
    ensures IsPinned(specs, n, o, later)
  {
    if o.fingerprint.Some? {
      PinAllGrows(specs, specs[n].references, later, earlier);
    }
  }

  lemma PinHoldsLater(
    later: Registry, earlier: Registry, specs: map<Name, Spec>, n: Name, laterPins: Pins, pins: Pins)
    requires Extends(later, earlier) && Grows(laterPins, pins) && n in pins && PinHolds(earlier, specs, n, pins)
    ensures PinHolds(later, specs, n, laterPins)
  {
    PinAllGrows(specs, specs[n].references, laterPins, pins);
  }

  // ---------------------------------------------------------------- one pass

  /** The pins once a pass has found a version for n. */
  function WithPin(pins: Pins, n: Name, applied: Applied): Pins {
    if n in pins || !applied.ok || !applied.posted then pins else pins[n := applied.obj.version]
  }

  /** Posting the pinned content again changes nothing; posting it for the first time gives it its version. */
  lemma PostIsPinned(w: World, n: Name, refs: seq<ReferenceIn>, pins: Pins)
    requires n in w.specs && PinSound(w, n, pins) && PinsOf(w.specs, n, pins) == Some(refs)
    ensures var spec, content := w.specs[n], ContentOf(w.specs[n], refs);
            var r := Post(w.registry, spec.subject, content);
            var version := VersionOf(Versions(r, spec.subject), IdOf(r.contents, content));
            && SchemaRegistry.Valid(r) && Extends(r, w.registry) && Holds(r, spec.subject, version, content)
            && (n in pins ==> r == w.registry && version == pins[n])
  {
    var spec, content := w.specs[n], ContentOf(w.specs[n], refs);
    PostKeepsValid(w.registry, spec.subject, content);
    PostExtends(w.registry, spec.subject, content);
    PostIsFound(w.registry, spec.subject, content);
    if n in pins {
      RevertIsIdempotent(w.registry, spec.subject, content, pins[n]);
    }
  }

  /** What a pass leaves is pinned, by the pins before it or by one more. */
  ghost predicate KeepsPins(w: World, n: Name, effect: Applied, pins: Pins)
    requires n in w.specs
  {
    var pins' := WithPin(pins, n, effect);
    && SchemaRegistry.Valid(effect.registry) && Extends(effect.registry, w.registry)
    && IsPinned(w.specs, n, effect.obj, pins')
    && (n in pins' ==> PinHolds(effect.registry, w.specs, n, pins'))
  }

  /** A pass that finds a version pins it, and moves no other pin. */
  lemma WithPinGrows(pins: Pins, n: Name, applied: Applied)
    requires applied.ok && applied.posted && (n in pins ==> applied.obj.version == pins[n])
    ensures var later := WithPin(pins, n, applied); Grows(later, pins) && n in later && later[n] == applied.obj.version
  {
  }

  lemma FoundIsPinned(w: World, n: Name, refs: seq<ReferenceIn>, effect: Applied, pins: Pins)
    requires n in w.specs && PinSound(w, n, pins) && PinsOf(w.specs, n, pins) == Some(refs) && effect.ok &&
             effect.posted
    requires effect.registry == Post(w.registry, w.specs[n].subject, ContentOf(w.specs[n], refs))
    requires effect.obj.fingerprint == Some(FingerprintOf(w.specs[n], refs))
    requires effect.obj.version ==
             VersionOf(Versions(effect.registry, w.specs[n].subject),
                 IdOf(effect.registry.contents, ContentOf(w.specs[n], refs)))
    ensures KeepsPins(w, n, effect, pins)
  {
    PostIsPinned(w, n, refs, pins);
    WithPinGrows(pins, n, effect);
    NowPinned(w.specs, n, refs, effect.registry, effect.obj, pins, WithPin(pins, n, effect));
  }

  lemma NowPinned(
    specs: map<Name, Spec>, n: Name, refs: seq<ReferenceIn>, r: Registry, o: Object, earlier: Pins, later: Pins)
    requires n in specs && Grows(later, earlier) && PinsOf(specs, n, earlier) == Some(refs)
    requires n in later && later[n] == o.version && o.fingerprint == Some(FingerprintOf(specs[n], refs))
    requires Holds(r, specs[n].subject, o.version, ContentOf(specs[n], refs))
    ensures IsPinned(specs, n, o, later) && PinHolds(r, specs, n, later)
  {
    PinAllGrows(specs, specs[n].references, later, earlier);
  }

  lemma NotFoundIsPinned(w: World, n: Name, o: Object, effect: Applied, pins: Pins)
    requires n in w.specs && PinSound(w, n, pins) && IsPinned(w.specs, n, o, pins) && !(effect.ok && effect.posted)
    requires SchemaRegistry.Valid(effect.registry) && Extends(effect.registry, w.registry)
    requires effect.obj.version == o.version && effect.obj.fingerprint == o.fingerprint
    ensures KeepsPins(w, n, effect, pins)
  {
    if n in pins {
      PinHoldsLater(effect.registry, w.registry, w.specs, n, pins, pins);
    }
  }

  lemma EndIsPinned(w: World, n: Name, o: Object, refs: Option<seq<ReferenceIn>>, effect: Applied, pins: Pins)
    requires n in w.specs && PinSound(w, n, pins) && IsPinned(w.specs, n, o, pins)
    requires refs.Some? ==> PinsOf(w.specs, n, pins) == refs
    requires EndsAs(w, w.specs[n], o, refs, effect)
    ensures KeepsPins(w, n, effect, pins)
  {
    if effect.ok && effect.posted {
      FoundIsPinned(w, n, refs.value, effect, pins);
    } else {
      if refs.Some? {
        PostIsPinned(w, n, refs.value, pins);
      }
      NotFoundIsPinned(w, n, o, effect, pins);
    }
  }

  lemma SeenIsPinned(w: World, p: Pass, pins: Pins)
    requires AllPinned(w, pins) && p.name in w.specs && p.seen < |w.stored[p.name]|
    ensures PinSound(w, p.name, pins) && IsPinned(w.specs, p.name, w.stored[p.name][p.seen], pins)
    ensures var refs := Resolve(w, w.specs[p.name].references, p.apply);
            refs.Some? ==> PinsOf(w.specs, p.name, pins) == refs
  {
    assert StatesPinned(w.specs, p.name, w.stored[p.name], pins);
    if p.name in pins {
      assert PinHolds(w.registry, w.specs, p.name, pins);
    }
    if Resolve(w, w.specs[p.name].references, p.apply).Some? {
      ResolveIsPinned(w, w.specs[p.name].references, p.apply, pins);
    }
  }

  lemma PersistIsPinned(specs: map<Name, Spec>, n: Name, states: seq<Object>, p: Pass, o: Object, pins: Pins)
    requires n in specs && p.seen < |states| && StatesPinned(specs, n, states, pins) && IsPinned(specs, n, o, pins)
    ensures StatesPinned(specs, n, Persist(states, p.seen, o, p.status, p.patch), pins)
  {
    var states' := Persist(states, p.seen, o, p.status, p.patch);
    forall i | 0 <= i < |states'|
      ensures IsPinned(specs, n, states'[i], pins)
    {
      PersistedStates(states, p.seen, o, p.status, p.patch, i);
    }
  }

  lemma StatesGrowPinned(specs: map<Name, Spec>, n: Name, states: seq<Object>, later: Pins, earlier: Pins)
    requires n in specs && StatesPinned(specs, n, states, earlier) && Grows(later, earlier)
    ensures StatesPinned(specs, n, states, later)
  {
    forall i | 0 <= i < |states|
      ensures IsPinned(specs, n, states[i], later)
    {
      IsPinnedGrows(specs, n, states[i], later, earlier);
    }
  }

  lemma AfterStatesPinned(w: World, p: Pass, effect: Applied, next: World, pins: Pins, later: Pins, n: Name)
    requires p.name in w.specs && p.name in w.stored && p.seen < |w.stored[p.name]| && n in w.stored && n in w.specs
    requires next == After(w, p, w.specs[p.name].subject, effect) && Grows(later, pins)
    requires StatesPinned(w.specs, n, w.stored[n], pins) && IsPinned(w.specs, p.name, effect.obj, later)
    ensures StatesPinned(w.specs, n, next.stored[n], later)
  {
    AfterStores(w, p, effect, next, n);
    StatesGrowPinned(w.specs, n, w.stored[n], later, pins);
    if n == p.name {
      PersistIsPinned(w.specs, n, w.stored[n], p, effect.obj, later);
    }
  }

  lemma AfterPinHolds(w: World, n: Name, effect: Applied, pins: Pins, m: Name)
    requires n in w.specs && KeepsPins(w, n, effect, pins) && m in WithPin(pins, n, effect)
    requires m in pins ==> PinHolds(w.registry, w.specs, m, pins)
    ensures PinHolds(effect.registry, w.specs, m, WithPin(pins, n, effect))
  {
    if m != n {
      PinHoldsLater(effect.registry, w.registry, w.specs, m, WithPin(pins, n, effect), pins);
    }
  }

  lemma AfterIsPinned(w: World, p: Pass, effect: Applied, next: World, pins: Pins)
    requires AllPinned(w, pins) && p.name in w.specs && p.seen < |w.stored[p.name]| && KafkaSchemas.Valid(next)
    requires next == After(w, p, w.specs[p.name].subject, effect) && KeepsPins(w, p.name, effect, pins)
    ensures AllPinned(next, WithPin(pins, p.name, effect))
  {
    var later := WithPin(pins, p.name, effect);
    forall n | n in next.stored
      ensures StatesPinned(next.specs, n, next.stored[n], later)
    {
      AfterStatesPinned(w, p, effect, next, pins, later, n);
    }
    forall n | n in later
      ensures PinHolds(next.registry, next.specs, n, later)
    {
      AfterPinHolds(w, p.name, effect, pins, n);
    }
  }

  lemma NextIsPinned(w: World, p: Pass, next: World, pins: Pins) returns (pins': Pins)
    requires AllPinned(w, pins) && Next(w, p) == Some(next)
    ensures AllPinned(next, pins') && Grows(pins', pins) && next.specs == w.specs
  {
    NextKeepsValid(w, p, next);
    SeenIsPinned(w, p, pins);
    EffectEnds(w, w.specs[p.name], p);
    var effect := Effect(w, w.specs[p.name], p);
    EndIsPinned(w, p.name, w.stored[p.name][p.seen], Resolve(w, w.specs[p.name].references, p.apply), effect, pins);
    AfterIsPinned(w, p, effect, next, pins);
    pins' := WithPin(pins, p.name, effect);
  }

  // ---------------------------------------------------------------- runs

  lemma {:induction false} RunIsPinned(w: World, passes: seq<Pass>, end: World, pins: Pins) returns (endPins: Pins)
    requires AllPinned(w, pins) && Run(w, passes) == Some(end)
    ensures AllPinned(end, endPins) && Grows(endPins, pins) && end.specs == w.specs
    decreases |passes|
  {
    if passes == [] {
      endPins := pins;
    } else {
      var next := Next(w, passes[0]).value;
      var more := NextIsPinned(w, passes[0], next, pins);
      endPins := RunIsPinned(next, passes[1..], end, more);
    }
  }

  lemma UnregisteredIsPinned(w: World)
    requires Unregistered(w) && SchemaRegistry.Valid(w.registry)
    ensures AllPinned(w, map[])
  {
    forall n | n in w.stored
      ensures StatesPinned(w.specs, n, w.stored[n], map[])
    {
      assert ValidStates(w.stored[n]);
    }
  }

  /** Once a schema has a version, no run ever gives it another one. */
  lemma VersionsNeverMove(w: World, passes: seq<Pass>, end: World, pins: Pins, n: Name)
    requires AllPinned(w, pins) && Run(w, passes) == Some(end) && n in pins
    ensures KafkaSchemas.Valid(end) && n in end.stored
    ensures Latest(end, n).version == 0 || Latest(end, n).version == pins[n]
  {
    var endPins := RunIsPinned(w, passes, end, pins);
    assert PinHolds(w.registry, w.specs, n, pins);
    assert StatesPinned(end.specs, n, end.stored[n], endPins);
  }

  /** In every run from an unregistered start, torn passes or not, every version holds what the fingerprint says. */
  lemma EveryRunTracks(w: World, passes: seq<Pass>, end: World)
    requires Unregistered(w) && SchemaRegistry.Valid(w.registry) && Run(w, passes) == Some(end)
    ensures AllTrack(end) && end.specs == w.specs
  {
    UnregisteredIsPinned(w);
    var pins := RunIsPinned(w, passes, end, map[]);
    forall n | n in end.specs
      ensures Tracks(end.registry, end.specs[n], Latest(end, n))
    {
      PinnedTracks(end, n, pins);
    }
  }

  lemma PinnedTracks(w: World, n: Name, pins: Pins)
    requires AllPinned(w, pins) && n in w.specs
    ensures Tracks(w.registry, w.specs[n], Latest(w, n))
  {
    var o := Latest(w, n);
    assert StatesPinned(w.specs, n, w.stored[n], pins) && ValidStates(w.stored[n]);
    if o.fingerprint.Some? {
      assert PinHolds(w.registry, w.specs, n, pins);
      var content := ContentOf(w.specs[n], PinsOf(w.specs, n, pins).value);
      assert IsContentOf(content, o.fingerprint.value);
    }
  }

  // ---------------------------------------------------------------- what is registered is current

  predicate LastHasVersion(states: seq<Object>) {
    states != [] && states[|states| - 1].version >= 1
  }

  predicate HasVersion(w: World, n: Name) {
    n in w.stored && LastHasVersion(w.stored[n])
  }

  /** Once there is a version, later states have one. */
  ghost predicate VersionStays(states: seq<Object>) {
    forall i | 0 <= i < |states| :: states[i].version >= 1 ==> LastHasVersion(states)
  }

  ghost predicate ReferentsHaveVersions(w: World, n: Name)
    requires n in w.specs
  {
    forall m | m in Locals(w.specs[n].references) :: HasVersion(w, m)
  }

  /** A schema has a version only while everything that it references has one. */
  ghost predicate ReferentsFirst(w: World) {
    && KafkaSchemas.Valid(w)
    && (forall n | n in w.stored :: VersionStays(w.stored[n]))
    && (forall n | n in w.specs :: HasVersion(w, n) ==> ReferentsHaveVersions(w, n))
  }

  lemma ReadReferentsHaveVersions(w: World, n: Name, view: View)
    requires ReferentsFirst(w) && n in w.specs && Resolve(w, w.specs[n].references, view).Some?
    ensures ReferentsHaveVersions(w, n)
  {
    var references := w.specs[n].references;
    forall m | m in Locals(references)
      ensures HasVersion(w, m)
    {
      var i :| 0 <= i < |references| && references[i].Local? && references[i].schema == m;
      ResolveMeaning(w, references, view);
      assert ResolveOne(w, references[i], view).Some?;
      assert VersionStays(w.stored[m]) && w.stored[m][view[m]].version >= 1;
    }
  }

  lemma PersistKeepsVersion(states: seq<Object>, p: Pass, o: Object)
    requires states != [] && p.seen < |states| && VersionStays(states)
    requires o.version == states[p.seen].version || o.version >= 1
    ensures var states' := Persist(states, p.seen, o, p.status, p.patch);
            && VersionStays(states') && (LastHasVersion(states) ==> LastHasVersion(states'))
            && (LastHasVersion(states') ==> LastHasVersion(states) || o.version != states[p.seen].version)
  {
    var states' := Persist(states, p.seen, o, p.status, p.patch);
    PersistedLast(states, p.seen, o, p.status, p.patch);
    forall i | 0 <= i < |states'|
      ensures states'[i].version >= 1 ==> LastHasVersion(states')
    {
      if i < |states| {
        assert states'[..|states|][i] == states[i];
      } else {
        PersistedNew(states, p.seen, o, p.status, p.patch, i);
      }
    }
  }

  lemma PersistedNew(states: seq<Object>, seen: nat, o: Object, status: Fate, patch: Fate, i: nat)
    requires seen < |states| && |states| <= i < |Persist(states, seen, o, status, patch)|
    ensures seen == |states| - 1 && status.Applied() && Persist(states, seen, o, status, patch)[i].version == o.version
  {
  }

  lemma AfterHasVersions(w: World, p: Pass, effect: Applied, next: World, n: Name)
    requires ReferentsFirst(w) && p.name in w.specs && p.seen < |w.stored[p.name]| && n in w.stored
    requires next == After(w, p, w.specs[p.name].subject, effect)
    requires effect.obj.version == w.stored[p.name][p.seen].version || effect.obj.version >= 1
    ensures VersionStays(next.stored[n]) && (HasVersion(w, n) ==> HasVersion(next, n))
    ensures HasVersion(next, n) ==>
              HasVersion(w, n) || (n == p.name && effect.obj.version != w.stored[p.name][p.seen].version)
  {
    AfterStores(w, p, effect, next, n);
    assert VersionStays(w.stored[n]) && ValidStates(w.stored[n]);
    if n == p.name {
      PersistKeepsVersion(w.stored[n], p, effect.obj);
    }
  }

  lemma NextKeepsReferentsFirst(w: World, p: Pass, next: World)
    requires ReferentsFirst(w) && Next(w, p) == Some(next)
    ensures ReferentsFirst(next) && next.specs == w.specs
  {
    NextKeepsValid(w, p, next);
    EffectObject(w, w.specs[p.name], p);
    AfterKeepsReferentsFirst(w, p, Effect(w, w.specs[p.name], p), next);
  }

  lemma AfterKeepsReferentsFirst(w: World, p: Pass, effect: Applied, next: World)
    requires ReferentsFirst(w) && p.name in w.specs && p.seen < |w.stored[p.name]| && KafkaSchemas.Valid(next)
    requires next == After(w, p, w.specs[p.name].subject, effect)
    requires || effect.obj.version == w.stored[p.name][p.seen].version
             || (effect.obj.version >= 1 && Resolve(w, w.specs[p.name].references, p.apply).Some?)
    ensures ReferentsFirst(next)
  {
    forall n | n in w.stored
      ensures VersionStays(next.stored[n]) && (HasVersion(w, n) ==> HasVersion(next, n))
    {
      AfterHasVersions(w, p, effect, next, n);
    }
    forall n | n in w.specs && HasVersion(next, n)
      ensures ReferentsHaveVersions(next, n)
    {
      AfterHasVersions(w, p, effect, next, n);
      if !HasVersion(w, n) {
        ReadReferentsHaveVersions(w, n, p.apply);
      }
      assert ReferentsHaveVersions(w, n);
    }
  }

  lemma {:induction false} RunKeepsReferentsFirst(w: World, passes: seq<Pass>, end: World)
    requires ReferentsFirst(w) && Run(w, passes) == Some(end)
    ensures ReferentsFirst(end) && end.specs == w.specs
    decreases |passes|
  {
    if passes != [] {
      var next := Next(w, passes[0]).value;
      NextKeepsReferentsFirst(w, passes[0], next);
      RunKeepsReferentsFirst(next, passes[1..], end);
    }
  }

  lemma WithVersionsResolves(w: World, n: Name)
    requires ReferentsFirst(w) && n in w.specs && HasVersion(w, n)
    ensures Desired(w, n).Some?
  {
    var references := w.specs[n].references;
    assert ReferentsHaveVersions(w, n);
    forall i | 0 <= i < |references|
      ensures ResolveOne(w, references[i], CurrentView(w)).Some?
    {
      if references[i].Local? {
        assert references[i].schema in Locals(references);
        assert HasVersion(w, references[i].schema);
      }
    }
    ResolveMeaning(w, references, CurrentView(w));
  }

  lemma PinnedIsCurrent(w: World, n: Name, pins: Pins)
    requires AllPinned(w, pins) && n in w.specs && HasVersion(w, n) && Desired(w, n).Some?
    ensures ReferencesAreCurrent(w, n)
  {
    assert StatesPinned(w.specs, n, w.stored[n], pins);
    assert IsPinned(w.specs, n, Latest(w, n), pins);
    assert PinHolds(w.registry, w.specs, n, pins);
    ResolveIsPinned(w, w.specs[n].references, CurrentView(w), pins);
    var content := ContentOf(w.specs[n], Desired(w, n).value);
    assert Holds(w.registry, w.specs[n].subject, Latest(w, n).version, content);
    assert IsContentOf(content, FingerprintOf(w.specs[n], Desired(w, n).value));
  }

  /** With fixed specs, in every state that a run from an unregistered start reaches, torn passes, old reads and cycles
      of references included: a schema that has a version has references that resolve, and its version holds its spec
      with exactly what they resolve to now. */
  lemma WhatIsRegisteredIsCurrent(w: World, passes: seq<Pass>, end: World, n: Name)
    requires Unregistered(w) && SchemaRegistry.Valid(w.registry) && Run(w, passes) == Some(end) && n in w.specs
    ensures KafkaSchemas.Valid(end) && end.specs == w.specs
    ensures Latest(end, n).version >= 1 <==> ReferencesAreCurrent(end, n)
  {
    UnregisteredIsPinned(w);
    var pins := RunIsPinned(w, passes, end, map[]);
    RunKeepsReferentsFirst(w, passes, end);
    if Latest(end, n).version >= 1 {
      WithVersionsResolves(end, n);
      PinnedIsCurrent(end, n, pins);
    }
  }
}
