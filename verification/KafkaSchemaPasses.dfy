/** What one pass over a KafkaSchema does, field by field, from the object it read and the answers it met. */
module KafkaSchemaPasses {
  import opened Base
  import opened SchemaRegistry
  import opened KafkaSchemas
  import CompatibilityOverride

  /** The object is recorded as registered with these references, in its current generation. */
  predicate IsRecorded(spec: Spec, o: Object, refs: seq<ReferenceIn>) {
    && o.fingerprint == Some(Fingerprint(spec.schema, spec.schemaType, spec.level, set r | r in refs))
    && o.processed == Some(spec.generation)
  }

  /** The pass gets past its gate, finds the service operational and lists the subjects. */
  predicate GetsToSubjects(w: World, spec: Spec, p: Pass) {
    && (forall i | 0 <= i < |spec.references| && spec.references[i].Local? ::
          Read(w, p.gate, spec.references[i].schema).Some? &&
          var o := Read(w, p.gate, spec.references[i].schema).value;
          o.running && o.processed == Some(w.specs[spec.references[i].schema].generation))
    && p.calls.operational && p.calls.list
  }

  /** It finds nothing to do. */
  predicate FindsRecorded(w: World, spec: Spec, o: Object, p: Pass) {
    && GetsToSubjects(w, spec, p) && spec.subject in w.registry.subjects
    && Resolve(w, spec.references, p.observe).Some?
    && IsRecorded(spec, o, Resolve(w, spec.references, p.observe).value)
  }

  /** It creates or updates: the subject is new, or what is recorded is not what is wanted. */
  predicate Applies(w: World, spec: Spec, o: Object, p: Pass) {
    && GetsToSubjects(w, spec, p)
    && (spec.subject in w.registry.subjects ==>
          && Resolve(w, spec.references, p.observe).Some?
          && !IsRecorded(spec, o, Resolve(w, spec.references, p.observe).value))
  }

  lemma GateWrittenOut(w: World, spec: Spec, p: Pass)
    ensures GetsToSubjects(w, spec, p) <==>
            GateOpen(w, spec.references, p.gate) && p.calls.operational && p.calls.list
  {
  }

  lemma VerdictWrittenOut(w: World, spec: Spec, o: Object, p: Pass)
    requires GateOpen(w, spec.references, p.gate)
    ensures var verdict := Observe(w, spec, o, p.observe, p.calls).verdict;
            && (verdict.UpToDate? <==> FindsRecorded(w, spec, o, p))
            && (verdict.ToCreate? || verdict.ToUpdate? <==> Applies(w, spec, o, p))
  {
    GateWrittenOut(w, spec, p);
  }

  /** A pass that neither finds the schema recorded nor applies it changes nothing: its gate is shut, a call failed,
      or a reference does not resolve. One that finds it recorded marks the object as running and processed, and
      records the level that is set if none is on record. */
  lemma QuietPass(w: World, spec: Spec, p: Pass, o: Object)
    requires p.name in w.stored && p.seen < |w.stored[p.name]| && o == w.stored[p.name][p.seen]
    requires !Applies(w, spec, o, p)
    ensures var effect := Effect(w, spec, p);
            && effect.registry == w.registry && !effect.posted
            && effect.config == ConfigOf(w, spec.subject)
            && effect.obj ==
               if FindsRecorded(w, spec, o, p)
               then o.(running := true, compatibility :=
                 if spec.level != "" && o.compatibility.None? then Some(spec.level) else o.compatibility)
               else o
  {
    GateWrittenOut(w, spec, p);
    if GateOpen(w, spec.references, p.gate) {
      VerdictWrittenOut(w, spec, o, p);
    }
  }

  /** How far an apply gets: references, then the level, then the post, then the lookup of its version. */
  datatype Progress = Unresolved | LevelFailed | PostFailed | LookupFailed | Registered

  function ProgressOf(w: World, spec: Spec, recorded: Option<CompatibilityOverride.Level>, p: Pass): Progress {
    if Resolve(w, spec.references, p.apply).None? then Unresolved
    else if !CompatibilityOverride.Apply(spec.level, recorded, ConfigOf(w, spec.subject), p.calls.config).ok
    then LevelFailed
    else if !p.calls.post.Acknowledged? then PostFailed
    else if !p.calls.lookup then LookupFailed
    else Progress.Registered
  }

  /** The id in the status is that of the content, and the version holds it. */
  predicate IsStoredAs(r: Registry, subject: string, o: Object, content: Content) {
    1 <= o.id <= |r.contents| && r.contents[o.id - 1] == content && Holds(r, subject, o.version, content)
  }

  lemma ApplyWrittenOut(w: World, spec: Spec, o: Object, p: Pass)
    ensures var applied := ApplySchema(w, spec, o, p.apply, p.calls);
            var before := ConfigOf(w, spec.subject);
            var level := CompatibilityOverride.Apply(spec.level, o.compatibility, before, p.calls.config);
            var progress := ProgressOf(w, spec, o.compatibility, p);
            && applied.ok == progress.Registered?
            && applied.config == (if progress.Unresolved? then before else level.config)
            && applied.posted == (progress.Registered? || progress.LookupFailed? ||
                                  (progress.PostFailed? && p.calls.post.Lost?))
            && applied.registry == (if applied.posted
                                    then Post(w.registry, spec.subject,
                                              Content(spec.schema, spec.schemaType,
                                                      Resolve(w, spec.references, p.apply).value))
                                    else w.registry)
            && applied.obj.compatibility == (if progress.Unresolved? then o.compatibility else level.recorded)
            && applied.obj.running == o.running && applied.obj.processed == o.processed
            && (!progress.Registered? ==>
                  applied.obj.fingerprint == o.fingerprint && applied.obj.version == o.version &&
                  applied.obj.id == o.id)
            && (progress.Registered? ==>
                  && applied.obj.fingerprint ==
                     Some(Fingerprint(spec.schema, spec.schemaType, spec.level,
                                      set r | r in Resolve(w, spec.references, p.apply).value))
                  && IsStoredAs(applied.registry, spec.subject, applied.obj,
                                Content(spec.schema, spec.schemaType, Resolve(w, spec.references, p.apply).value)))
  {
    if Resolve(w, spec.references, p.apply).Some? {
      var content := ContentOf(spec, Resolve(w, spec.references, p.apply).value);
      PostIsFound(w.registry, spec.subject, content);
      PostedId(w.registry, spec.subject, content);
    }
  }

  /** The level on record when an apply starts: one that was set before levels were recorded is added first. */
  function RecordedAtApply(w: World, spec: Spec, o: Object, p: Pass): Option<CompatibilityOverride.Level> {
    if spec.subject in w.registry.subjects && spec.level != "" && o.compatibility.None? &&
       Resolve(w, spec.references, p.observe).Some? &&
       o.fingerprint == Some(Fingerprint(spec.schema, spec.schemaType, spec.level,
                                         set r | r in Resolve(w, spec.references, p.observe).value))
    then Some(spec.level) else o.compatibility
  }

  lemma RecordedWrittenOut(w: World, spec: Spec, o: Object, p: Pass)
    requires Applies(w, spec, o, p)
    ensures var obj := Observe(w, spec, o, p.observe, p.calls).obj;
            obj.(running := false) == o.(running := false, compatibility := RecordedAtApply(w, spec, o, p))
  {
  }

  /** A pass that applies takes the running mark away. The generation counts as processed, with the fingerprint of
      what was posted, exactly if it gets to the end; the level and the post stay, as far as it got. */
  lemma ApplyingPass(w: World, spec: Spec, p: Pass, o: Object)
    requires p.name in w.stored && p.seen < |w.stored[p.name]| && o == w.stored[p.name][p.seen]
    requires Applies(w, spec, o, p)
    ensures var effect, progress := Effect(w, spec, p), ProgressOf(w, spec, RecordedAtApply(w, spec, o, p), p);
            && !effect.obj.running && effect.ok == progress.Registered?
            && effect.posted == (progress.Registered? || progress.LookupFailed? ||
                                 (progress.PostFailed? && p.calls.post.Lost?))
            && effect.registry == (if effect.posted
                                   then Post(w.registry, spec.subject,
                                             Content(spec.schema, spec.schemaType,
                                                     Resolve(w, spec.references, p.apply).value))
                                   else w.registry)
            && effect.obj.processed == (if effect.ok then Some(spec.generation) else o.processed)
            && (effect.ok ==>
                  effect.obj.fingerprint ==
                  Some(Fingerprint(spec.schema, spec.schemaType, spec.level,
                                   set r | r in Resolve(w, spec.references, p.apply).value)))
            && (!effect.ok ==> effect.obj.fingerprint == o.fingerprint && effect.obj.version == o.version)
  {
    var observed := Observe(w, spec, o, p.observe, p.calls);
    VerdictWrittenOut(w, spec, o, p);
    RecordedWrittenOut(w, spec, o, p);
    ApplyWrittenOut(w, spec, observed.obj.(running := false), p);
    AppliedIsOutcome(w, spec, p, o);
  }

  lemma AppliedIsOutcome(w: World, spec: Spec, p: Pass, o: Object)
    requires p.name in w.stored && p.seen < |w.stored[p.name]| && o == w.stored[p.name][p.seen]
    requires Applies(w, spec, o, p)
    ensures var observed := Observe(w, spec, o, p.observe, p.calls);
            var applied := ApplySchema(w, spec, observed.obj.(running := false), p.apply, p.calls);
            Effect(w, spec, p) == if applied.ok then applied.(obj := Completed(spec, applied.obj)) else applied
  {
    VerdictWrittenOut(w, spec, o, p);
  }

  /** The override that a subject has now. */
  function OverrideOf(w: World, subject: string): Option<CompatibilityOverride.Level> {
    if subject in w.overrides then Some(w.overrides[subject]) else None
  }

  /** The override that a pass leaves for its subject: what the ownership of the level says, if it applies and its
      references resolve, and the one that there was otherwise. */
  function OverrideAfter(w: World, spec: Spec, o: Object, p: Pass): Option<CompatibilityOverride.Level> {
    var before := CompatibilityOverride.Config(OverrideOf(w, spec.subject), w.global);
    if Applies(w, spec, o, p) && Resolve(w, spec.references, p.apply).Some?
    then CompatibilityOverride.Apply(spec.level, RecordedAtApply(w, spec, o, p), before, p.calls.config).config.override
    else before.override
  }

  lemma EffectOverride(w: World, spec: Spec, p: Pass, o: Object)
    requires p.name in w.stored && p.seen < |w.stored[p.name]| && o == w.stored[p.name][p.seen]
    ensures Effect(w, spec, p).config.override == OverrideAfter(w, spec, o, p)
    ensures OverrideAfter(w, spec, o, p).None? ==> OverrideOf(w, spec.subject).None?
  {
    if Applies(w, spec, o, p) {
      ConfigAfterApply(w, spec, p, o);
    } else {
      QuietPass(w, spec, p, o);
    }
  }

  lemma StoredOverride(w: World, p: Pass, own: string, effect: Applied, next: World, subject: string)
    requires p.name in w.stored && p.seen < |w.stored[p.name]| && next == After(w, p, own, effect)
    requires effect.config.override.None? ==> OverrideOf(w, own).None?
    ensures OverrideOf(next, subject) == if subject == own then effect.config.override else OverrideOf(w, subject)
    ensures next.global == w.global
  {
  }

  /** A pass changes the override of its own subject only. */
  lemma OverridesAfter(w: World, p: Pass, next: World, subject: string)
    requires Next(w, p) == Some(next)
    ensures OverrideOf(next, subject) ==
            if subject == w.specs[p.name].subject
            then OverrideAfter(w, w.specs[p.name], w.stored[p.name][p.seen], p) else OverrideOf(w, subject)
    ensures next.global == w.global
  {
    var spec := w.specs[p.name];
    EffectOverride(w, spec, p, w.stored[p.name][p.seen]);
    StoredOverride(w, p, spec.subject, Effect(w, spec, p), next, subject);
  }

  lemma ConfigAfterApply(w: World, spec: Spec, p: Pass, o: Object)
    requires p.name in w.stored && p.seen < |w.stored[p.name]| && o == w.stored[p.name][p.seen]
    requires Applies(w, spec, o, p)
    ensures Effect(w, spec, p).config ==
            if Resolve(w, spec.references, p.apply).Some?
            then CompatibilityOverride.Apply(spec.level, RecordedAtApply(w, spec, o, p), ConfigOf(w, spec.subject),
                                             p.calls.config).config
            else ConfigOf(w, spec.subject)
  {
    var observed := Observe(w, spec, o, p.observe, p.calls);
    RecordedWrittenOut(w, spec, o, p);
    ApplyWrittenOut(w, spec, observed.obj.(running := false), p);
    AppliedIsOutcome(w, spec, p, o);
  }
}
