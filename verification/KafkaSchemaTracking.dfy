/** Whether the version in the status of a schema holds the content that its fingerprint records.

    The two are stored by two writes, so a pass can store one and lose the other. */
module KafkaSchemaTracking {
  import opened Base
  import opened SchemaGraph
  import opened SchemaRegistry
  import opened KafkaSchemas

  function Latest(w: World, n: Name): Object
    requires KafkaSchemas.Valid(w) && n in w.stored
  {
    w.stored[n][|w.stored[n]| - 1]
  }

  function CurrentView(w: World): View
    requires KafkaSchemas.Valid(w)
  {
    map n | n in w.stored :: |w.stored[n]| - 1
  }

  /** What the references of n resolve to now. */
  function Desired(w: World, n: Name): Option<seq<ReferenceIn>>
    requires KafkaSchemas.Valid(w) && n in w.specs
  {
    Resolve(w, w.specs[n].references, CurrentView(w))
  }

  /** A content of this fingerprint, whatever the order of its references. */
  predicate IsContentOf(content: Content, fingerprint: Fingerprint) {
    && content.schema == fingerprint.schema && content.schemaType == fingerprint.schemaType
    && (set ref | ref in content.references) == fingerprint.references
  }

  /** The version in the status holds what the fingerprint says. */
  ghost predicate Tracks(r: Registry, spec: Spec, o: Object) {
    o.fingerprint.Some? ==>
      exists content :: Holds(r, spec.subject, o.version, content) && IsContentOf(content, o.fingerprint.value)
  }

  ghost predicate AllTrack(w: World) {
    KafkaSchemas.Valid(w) && forall n | n in w.specs :: Tracks(w.registry, w.specs[n], Latest(w, n))
  }

  /** The version in the status holds the current spec, and pins each reference to what it resolves to now. */
  ghost predicate ReferencesAreCurrent(w: World, n: Name) {
    && KafkaSchemas.Valid(w) && n in w.specs && Desired(w, n).Some?
    && exists content ::
      && Holds(w.registry, w.specs[n].subject, Latest(w, n).version, content)
      && IsContentOf(content, FingerprintOf(w.specs[n], Desired(w, n).value))
  }

  /** In particular, each referenced schema is pinned to its subject and to the version that it has now. */
  lemma CurrentReferences(w: World, n: Name, i: nat) returns (content: Content)
    requires ReferencesAreCurrent(w, n) && i < |w.specs[n].references| && w.specs[n].references[i].Local?
    ensures Holds(w.registry, w.specs[n].subject, Latest(w, n).version, content) && content.schema == w.specs[n].schema
    ensures var ref := w.specs[n].references[i];
            && ref.schema in w.specs
            && ReferenceIn(ref.name, w.specs[ref.schema].subject, Latest(w, ref.schema).version) in content.references
  {
    var spec, refs := w.specs[n], Desired(w, n).value;
    content :|
      Holds(w.registry, spec.subject, Latest(w, n).version, content) && IsContentOf(content, FingerprintOf(spec, refs));
    ResolveMeaning(w, spec.references, CurrentView(w));
    assert Some(refs[i]) == ResolveOne(w, spec.references[i], CurrentView(w));
    assert refs[i] in FingerprintOf(spec, refs).references;
  }

  // ---------------------------------------------------------------- one content for a version

  lemma OneContent(r: Registry, subject: string, version: nat, a: Content, b: Content)
    requires Holds(r, subject, version, a) && Holds(r, subject, version, b)
    ensures a == b
  {
  }

  /** There is something under the version of a schema that has a fingerprint. */
  ghost predicate IsHeld(r: Registry, spec: Spec, o: Object) {
    o.fingerprint.Some? ==> exists content :: Holds(r, spec.subject, o.version, content)
  }

  ghost predicate AllHeld(w: World) {
    KafkaSchemas.Valid(w) && forall n | n in w.specs :: IsHeld(w.registry, w.specs[n], Latest(w, n))
  }

  /** A registry that grows does not decide anew. */
  lemma TracksLater(later: Registry, earlier: Registry, spec: Spec, o: Object)
    requires Extends(later, earlier) && IsHeld(earlier, spec, o)
    ensures IsHeld(later, spec, o)
    ensures Tracks(later, spec, o) <==> Tracks(earlier, spec, o)
  {
    if o.fingerprint.Some? {
      var content :| Holds(earlier, spec.subject, o.version, content);
      assert Holds(later, spec.subject, o.version, content);
      if other :| Holds(later, spec.subject, o.version, other) && IsContentOf(other, o.fingerprint.value) {
        OneContent(later, spec.subject, o.version, content, other);
      }
    }
  }

  predicate SameContent(a: Fingerprint, b: Fingerprint) {
    a.schema == b.schema && a.schemaType == b.schemaType && a.references == b.references
  }

  /** What one version tracks, it tracks for every fingerprint of that content and for no other. */
  lemma TracksSameContent(r: Registry, spec: Spec, a: Object, b: Object)
    requires a.version == b.version && a.fingerprint.Some? && b.fingerprint.Some? && Tracks(r, spec, a)
    ensures Tracks(r, spec, b) <==> SameContent(a.fingerprint.value, b.fingerprint.value)
  {
    var content :| Holds(r, spec.subject, a.version, content) && IsContentOf(content, a.fingerprint.value);
    if other :| Holds(r, spec.subject, b.version, other) && IsContentOf(other, b.fingerprint.value) {
      OneContent(r, spec.subject, a.version, content, other);
    }
  }

  // ---------------------------------------------------------------- one pass

  /** The pass found the version of what it posted, and stores it. */
  predicate Registers(w: World, p: Pass) {
    && p.name in w.specs && p.name in w.stored && p.seen == |w.stored[p.name]| - 1 && p.status.Applied()
    && Effect(w, w.specs[p.name], p).posted && Effect(w, w.specs[p.name], p).ok
  }

  /** The status is stored and the annotations are not. */
  predicate IsTorn(p: Pass) {
    p.status.Applied() && !(p.status.Acknowledged? && p.patch.Applied())
  }

  /** A torn pass does no harm if the annotations it loses record the same content as those that stay. */
  predicate IsHarmless(before: Object, p: Pass, after: Object) {
    || !IsTorn(p)
    || before.fingerprint.None?
    || (after.fingerprint.Some? && SameContent(before.fingerprint.value, after.fingerprint.value))
  }

  /** A pass either registers, with a version that tracks, or leaves version and fingerprint as it read them. */
  ghost predicate RegistersOrKeeps(r: Registry, spec: Spec, o: Object, effect: Applied) {
    if effect.posted && effect.ok then effect.obj.fingerprint.Some? && Tracks(r, spec, effect.obj)
    else effect.obj.version == o.version && effect.obj.fingerprint == o.fingerprint
  }

  lemma EndRegisters(w: World, spec: Spec, o: Object, refs: Option<seq<ReferenceIn>>, effect: Applied)
    requires EndsAs(w, spec, o, refs, effect)
    ensures Extends(effect.registry, w.registry) && RegistersOrKeeps(effect.registry, spec, o, effect)
  {
    if effect.posted {
      var content := ContentOf(spec, refs.value);
      PostExtends(w.registry, spec.subject, content);
      PostIsFound(w.registry, spec.subject, content);
      assert IsContentOf(content, FingerprintOf(spec, refs.value));
    }
  }

  lemma EffectRegisters(w: World, spec: Spec, p: Pass)
    requires p.name in w.stored && p.seen < |w.stored[p.name]|
    ensures var effect, o := Effect(w, spec, p), w.stored[p.name][p.seen];
            Extends(effect.registry, w.registry) && RegistersOrKeeps(effect.registry, spec, o, effect)
  {
    EffectEnds(w, spec, p);
    EndRegisters(w, spec, w.stored[p.name][p.seen], Resolve(w, spec.references, p.apply), Effect(w, spec, p));
  }

  lemma AppendedLast(states: seq<Object>, o: Object)
    requires states != []
    ensures Append(states, o)[|Append(states, o)| - 1] == o
  {
  }

  /** What is stored last: what was there, half of what the pass wanted, or all of it. */
  lemma PersistedLast(states: seq<Object>, seen: nat, o: Object, status: Fate, patch: Fate)
    requires states != [] && seen < |states|
    ensures var states' := Persist(states, seen, o, status, patch);
            states'[|states'| - 1] ==
            if seen != |states| - 1 || !status.Applied() then states[|states| - 1]
            else if status.Lost? || !patch.Applied() then states[seen].(id := o.id, version := o.version)
            else o
  {
    var half := Append(states, states[seen].(id := o.id, version := o.version));
    AppendedLast(states, states[seen].(id := o.id, version := o.version));
    AppendedLast(half, o);
  }

  /** The object of the pass afterwards. */
  lemma StoredTracks(r: Registry, spec: Spec, states: seq<Object>, p: Pass, effect: Applied)
    requires states != [] && p.seen < |states| && IsHeld(r, spec, states[|states| - 1])
    requires RegistersOrKeeps(r, spec, states[p.seen], effect)
    ensures var before := states[|states| - 1];
            var states' := Persist(states, p.seen, effect.obj, p.status, p.patch);
            var after := states'[|states'| - 1];
            && IsHeld(r, spec, after)
            && (Tracks(r, spec, after) <==>
                  if p.seen == |states| - 1 && p.status.Applied() && effect.posted && effect.ok
                  then IsHarmless(before, p, effect.obj) else Tracks(r, spec, before))
  {
    PersistedLast(states, p.seen, effect.obj, p.status, p.patch);
    var before, half := states[|states| - 1], states[p.seen].(id := effect.obj.id, version := effect.obj.version);
    if effect.posted && effect.ok && half.fingerprint.Some? {
      TracksSameContent(r, spec, effect.obj, half);
    }
  }

  lemma AfterStores(w: World, p: Pass, effect: Applied, next: World, n: Name)
    requires p.name in w.specs && p.name in w.stored && p.seen < |w.stored[p.name]| && n in w.stored
    requires next == After(w, p, w.specs[p.name].subject, effect)
    ensures n in next.stored && next.specs == w.specs && next.registry == effect.registry
    ensures next.stored[n] ==
            if n == p.name then Persist(w.stored[n], p.seen, effect.obj, p.status, p.patch) else w.stored[n]
  {
  }

  /** The same for any object, which is that of the pass or is left alone. */
  lemma StatesTrack(
    earlier: Registry, r: Registry, spec: Spec, states: seq<Object>, states': seq<Object>, before: Object,
    after: Object, p: Pass, own: bool, effect: Applied)
    requires states != [] && states' != [] && before == states[|states| - 1] && after == states'[|states'| - 1]
    requires Extends(r, earlier) && IsHeld(earlier, spec, before)
    requires own ==> p.seen < |states| && RegistersOrKeeps(r, spec, states[p.seen], effect)
    requires states' == if own then Persist(states, p.seen, effect.obj, p.status, p.patch) else states
    ensures IsHeld(r, spec, after)
    ensures Tracks(r, spec, after) <==>
            if own && p.seen == |states| - 1 && p.status.Applied() && effect.posted && effect.ok
            then IsHarmless(before, p, effect.obj) else Tracks(earlier, spec, before)
  {
    TracksLater(r, earlier, spec, before);
    if own {
      StoredTracks(r, spec, states, p, effect);
    }
  }

  lemma AfterTracks(w: World, p: Pass, effect: Applied, next: World, n: Name)
    requires KafkaSchemas.Valid(w) && KafkaSchemas.Valid(next) && p.name in w.specs && p.seen < |w.stored[p.name]|
    requires n in w.specs && n in next.specs && IsHeld(w.registry, w.specs[n], Latest(w, n))
    requires next.registry == effect.registry && Extends(effect.registry, w.registry)
    requires next.stored[n] ==
             if n == p.name then Persist(w.stored[n], p.seen, effect.obj, p.status, p.patch) else w.stored[n]
    requires RegistersOrKeeps(effect.registry, w.specs[p.name], w.stored[p.name][p.seen], effect)
    ensures IsHeld(next.registry, w.specs[n], Latest(next, n))
    ensures Tracks(next.registry, w.specs[n], Latest(next, n)) <==>
            if p.name == n && p.seen == |w.stored[n]| - 1 && p.status.Applied() && effect.posted && effect.ok
            then IsHarmless(Latest(w, n), p, effect.obj) else Tracks(w.registry, w.specs[n], Latest(w, n))
  {
    StatesTrack(w.registry, effect.registry, w.specs[n], w.stored[n], next.stored[n], Latest(w, n), Latest(next, n),
                p, n == p.name, effect);
  }

  /** Only a pass that registers a schema decides whether it tracks: it does, unless the pass is torn and
      loses the record of other content. */
  lemma NextTracksExactly(w: World, p: Pass, next: World, n: Name)
    requires AllHeld(w) && Next(w, p) == Some(next) && n in w.specs
    ensures AllHeld(next) && next.specs == w.specs
    ensures Tracks(next.registry, w.specs[n], Latest(next, n)) <==>
            if p.name == n && Registers(w, p) then IsHarmless(Latest(w, n), p, Effect(w, w.specs[n], p).obj)
            else Tracks(w.registry, w.specs[n], Latest(w, n))
  {
    NextKeepsValid(w, p, next);
    var effect := Effect(w, w.specs[p.name], p);
    EffectRegisters(w, w.specs[p.name], p);
    forall m | m in w.specs
      ensures IsHeld(next.registry, w.specs[m], Latest(next, m))
    {
      assert IsHeld(w.registry, w.specs[m], Latest(w, m));
      AfterStores(w, p, effect, next, m);
      AfterTracks(w, p, effect, next, m);
    }
    AfterStores(w, p, effect, next, n);
    AfterTracks(w, p, effect, next, n);
  }

  // ---------------------------------------------------------------- runs

  /** Whether the last pass that registered n was harmless; whole is the answer if there was none. */
  predicate LastRegistrationHarmless(w: World, passes: seq<Pass>, n: Name, whole: bool)
    decreases |passes|
  {
    if passes == [] || Next(w, passes[0]).None? then whole
    else
      LastRegistrationHarmless(
        Next(w, passes[0]).value, passes[1..], n,
        if passes[0].name == n && n in w.specs && n in w.stored && w.stored[n] != [] && Registers(w, passes[0])
        then IsHarmless(w.stored[n][|w.stored[n]| - 1], passes[0], Effect(w, w.specs[n], passes[0]).obj)
        else whole)
  }

  /** After any run, torn passes or not, a schema tracks exactly if the last pass that registered it was harmless. */
  lemma {:induction false} TracksExactlyIfHarmless(w: World, passes: seq<Pass>, end: World, n: Name, whole: bool)
    requires AllHeld(w) && Run(w, passes) == Some(end) && n in w.specs
    requires whole <==> Tracks(w.registry, w.specs[n], Latest(w, n))
    ensures AllHeld(end) && end.specs == w.specs
    ensures Tracks(end.registry, end.specs[n], Latest(end, n)) <==> LastRegistrationHarmless(w, passes, n, whole)
    decreases |passes|
  {
    if passes != [] {
      var next := Next(w, passes[0]).value;
      NextTracksExactly(w, passes[0], next, n);
      TracksExactlyIfHarmless(next, passes[1..], end, n, Tracks(next.registry, w.specs[n], Latest(next, n)));
    }
  }

  /** So a run without torn passes keeps all schemas tracking. */
  lemma {:induction false} RunTracks(w: World, passes: seq<Pass>, end: World)
    requires AllTrack(w) && Run(w, passes) == Some(end) && forall p | p in passes :: !IsTorn(p)
    ensures AllTrack(end)
    decreases |passes|
  {
    if passes != [] {
      assert passes[0] in passes;
      var next := Next(w, passes[0]).value;
      UntornPassTracks(w, passes[0], next);
      RunTracks(next, passes[1..], end);
    }
  }

  lemma TrackedIsHeld(w: World)
    requires AllTrack(w)
    ensures AllHeld(w)
  {
    forall n | n in w.specs
      ensures IsHeld(w.registry, w.specs[n], Latest(w, n))
    {
      assert Tracks(w.registry, w.specs[n], Latest(w, n));
    }
  }

  lemma UntornPassTracks(w: World, p: Pass, next: World)
    requires AllTrack(w) && Next(w, p) == Some(next) && !IsTorn(p)
    ensures AllTrack(next)
  {
    TrackedIsHeld(w);
    NextKeepsValid(w, p, next);
    forall n | n in w.specs
      ensures Tracks(next.registry, w.specs[n], Latest(next, n))
    {
      assert Tracks(w.registry, w.specs[n], Latest(w, n));
      NextTracksExactly(w, p, next, n);
    }
  }
}
