/** States that no pass changes, and what they say about the registered references. */
module KafkaSchemaFixpoint {
  import opened Base
  import opened SchemaGraph
  import opened SchemaRegistry
  import opened KafkaSchemas
  import opened KafkaSchemaTracking
  import opened KafkaSchemaConvergence
  import opened KafkaSchemaOrder
  import opened KafkaSchemaFixedSpecs

  ghost predicate LeavesAlone(w: World, n: Name)
    requires KafkaSchemas.Valid(w) && n in w.specs
  {
    Cleanly(w, n) == w
  }

  ghost predicate IsFixpoint(w: World) {
    KafkaSchemas.Valid(w) && forall n {:trigger LeavesAlone(w, n)} | n in w.specs :: LeavesAlone(w, n)
  }

  // ---------------------------------------------------------------- fixpoints are settled

  lemma {:induction false} FixpointSettlesLayer(w: World, k: nat)
    requires IsFixpoint(w)
    ensures LayerSettled(w, k)
    decreases k
  {
    if k > 0 {
      FixpointSettlesLayer(w, k - 1);
      forall n | n in Layer(References(w.specs), k)
        ensures Settled(w, n)
      {
        FixpointSettlesOne(w, n, k - 1);
      }
    }
  }

  lemma FixpointSettlesOne(w: World, n: Name, k: nat)
    requires IsFixpoint(w) && LayerSettled(w, k) && n in Layer(References(w.specs), k + 1)
    ensures Settled(w, n)
  {
    assert GateIsOpen(w, n) && Desired(w, n).Some? && n !in Locals(w.specs[n].references) by {
      SettledBelowOpens(w, n, k);
    }
    FixpointWithOpenGate(w, n);
  }

  /** Where the gate is open, a state that no pass changes is settled, and its references are current exactly if the
      version in the status tracks the fingerprint. */
  lemma FixpointWithOpenGate(w: World, n: Name)
    requires IsFixpoint(w) && GateIsOpen(w, n) && Desired(w, n).Some? && n !in Locals(w.specs[n].references)
    ensures Settled(w, n)
    ensures ReferencesAreCurrent(w, n) <==> Tracks(w.registry, w.specs[n], Latest(w, n))
  {
    assert LeavesAlone(w, n);
    OpenGatePass(w, n);
    SettledIsCurrentIfTracking(w, n);
  }

  /** After any run, torn passes or not, a state that no pass changes has the current references of a schema whose
      gate is open exactly if the last pass that registered the schema was harmless. */
  lemma CurrentExactlyIfHarmless(w: World, passes: seq<Pass>, end: World, n: Name)
    requires AllTrack(w) && Run(w, passes) == Some(end) && IsFixpoint(end) && n in w.specs
    requires GateIsOpen(end, n) && Desired(end, n).Some? && n !in Locals(end.specs[n].references)
    ensures ReferencesAreCurrent(end, n) <==> LastRegistrationHarmless(w, passes, n, true)
  {
    TrackedIsHeld(w);
    assert Tracks(w.registry, w.specs[n], Latest(w, n));
    TracksExactlyIfHarmless(w, passes, end, n, true);
    FixpointWithOpenGate(end, n);
  }

  // ---------------------------------------------------------------- acyclic graphs

  lemma AcyclicFixpointIsSettled(w: World, n: Name)
    requires IsFixpoint(w) && Closed(References(w.specs)) && Acyclic(References(w.specs)) && n in w.specs
    ensures Settled(w, n) && GateIsOpen(w, n) && Desired(w, n).Some? && n !in Locals(w.specs[n].references)
  {
    AcyclicIsLayered(References(w.specs));
    FixpointSettlesLayer(w, |References(w.specs)|);
    assert n in References(w.specs);
    SettledLayerOpens(w, n, |References(w.specs)|);
  }

  /** On an acyclic graph without missing schemas, a state that no pass changes is ready everywhere, whatever happened
      before; and a registered reference is at its referent's current version exactly if the last pass that registered
      its schema was harmless. */
  lemma AcyclicFixpointExactly(w: World, passes: seq<Pass>, end: World)
    requires AllTrack(w) && Run(w, passes) == Some(end) && IsFixpoint(end)
    requires Closed(References(w.specs)) && Acyclic(References(w.specs))
    ensures end.specs == w.specs
    ensures forall n | n in w.specs ::
              Settled(end, n) && (ReferencesAreCurrent(end, n) <==> LastRegistrationHarmless(w, passes, n, true))
  {
    RunKeepsSpecs(w, passes, end);
    forall n | n in w.specs
      ensures Settled(end, n) && (ReferencesAreCurrent(end, n) <==> LastRegistrationHarmless(w, passes, n, true))
    {
      AcyclicFixpointIsSettled(end, n);
      CurrentExactlyIfHarmless(w, passes, end, n);
    }
  }

  lemma {:induction false} RunKeepsSpecs(w: World, passes: seq<Pass>, end: World)
    requires Run(w, passes) == Some(end)
    ensures end.specs == w.specs
    decreases |passes|
  {
    if passes != [] {
      RunKeepsSpecs(Next(w, passes[0]).value, passes[1..], end);
    }
  }

  /** With versions that track fingerprints, every registered reference is current. */
  lemma FixpointIsCurrent(w: World)
    requires IsFixpoint(w) && AllTrack(w) && Closed(References(w.specs)) && Acyclic(References(w.specs))
    ensures forall n | n in w.specs :: Settled(w, n) && ReferencesAreCurrent(w, n)
  {
    AcyclicFixpointExactly(w, [], w);
  }

  /** With fixed specs no condition is left: every state that a run from an unregistered start can reach and no pass
      changes, torn passes or not, is ready everywhere, with every registered reference at its referent's current
      version. */
  lemma EveryFixpointOfARunIsCurrent(start: World, passes: seq<Pass>, end: World)
    requires Unregistered(start) && SchemaRegistry.Valid(start.registry) && Run(start, passes) == Some(end)
    requires IsFixpoint(end) && Closed(References(start.specs)) && Acyclic(References(start.specs))
    ensures forall n | n in start.specs :: Settled(end, n) && ReferencesAreCurrent(end, n)
  {
    EveryRunTracks(start, passes, end);
    FixpointIsCurrent(end);
  }

  /** And from whatever such a run leaves behind, full sweeps bring everything up to date. */
  lemma EveryRunConverges(start: World, passes: seq<Pass>, mid: World, sweeps: seq<seq<Name>>)
    requires Unregistered(start) && SchemaRegistry.Valid(start.registry) && Run(start, passes) == Some(mid)
    requires Closed(References(start.specs)) && Acyclic(References(start.specs))
    requires KafkaSchemas.Valid(mid) && mid.specs == start.specs
    requires (forall s | s in sweeps :: IsFullSweep(mid.specs, s)) && |sweeps| >= 2 * |mid.specs|
    ensures AllCurrent(Sweeps(mid, sweeps)) && forall n | n in mid.specs :: Settled(Sweeps(mid, sweeps), n)
  {
    EveryRunTracks(start, passes, mid);
    AcyclicSchemasGetReady(mid, sweeps);
  }

  // ---------------------------------------------------------------- shut gates

  lemma SameStates(states: seq<Object>)
    requires states != []
    ensures var o := states[|states| - 1]; Persist(states, |states| - 1, o, Acknowledged, Acknowledged) == states
  {
    var o := states[|states| - 1];
    assert o.(id := o.id, version := o.version) == o;
  }

  lemma SameOverrides(w: World, subject: string)
    ensures WithOverride(w.overrides, subject, ConfigOf(w, subject).override) == w.overrides
  {
    if subject in w.overrides {
      assert w.overrides[subject := w.overrides[subject]] == w.overrides;
    }
  }

  /** A pass that wants to store what is there leaves the world as it is. */
  lemma NothingToStore(w: World, p: Pass, subject: string, effect: Applied)
    requires p.name in w.stored && p.seen == |w.stored[p.name]| - 1
    requires p.status == Acknowledged && p.patch == Acknowledged
    requires effect.registry == w.registry && effect.obj == w.stored[p.name][p.seen]
    requires effect.config == ConfigOf(w, subject) && !effect.posted
    ensures After(w, p, subject, effect) == w
  {
    SameStates(w.stored[p.name]);
    assert w.stored[p.name := w.stored[p.name]] == w.stored;
    SameOverrides(w, subject);
  }

  /** Where the gate is shut no pass changes anything, whatever is registered. */
  lemma ShutGateChangesNothing(w: World, n: Name)
    requires KafkaSchemas.Valid(w) && n in w.specs && !GateIsOpen(w, n)
    ensures LeavesAlone(w, n)
  {
    CleanlyIsAfter(w, n);
    NothingToStore(w, CleanPass(w, n), w.specs[n].subject, Effect(w, w.specs[n], CleanPass(w, n)));
  }
}
