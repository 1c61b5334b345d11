/** In which order schemas get registered, in runs with old reads, failures and crashes. */
module KafkaSchemaOrder {
  import opened Base
  import opened SchemaGraph
  import opened SchemaRegistry
  import opened KafkaSchemas

  /** No schema has been registered yet; the registry may hold subjects of others. */
  ghost predicate Unregistered(w: World) {
    && KafkaSchemas.Valid(w) && w.order == []
    && (forall n, i | n in w.stored && 0 <= i < |w.stored[n]| :: w.stored[n][i].version == 0)
  }

  /** Whatever any read can return with a version has been registered. */
  ghost predicate VersionsAreEarned(w: World) {
    forall n, i | n in w.stored && 0 <= i < |w.stored[n]| :: w.stored[n][i].version >= 1 ==> n in w.order
  }

  predicate ComesBefore(order: seq<Name>, i: nat, m: Name)
    requires i <= |order|
  {
    exists j | 0 <= j < i :: order[j] == m
  }

  /** Every schema comes after the schemas it references. */
  ghost predicate Topological(specs: map<Name, Spec>, order: seq<Name>) {
    && (forall i | 0 <= i < |order| :: order[i] in specs)
    && (forall i, j | 0 <= i < j < |order| :: order[i] != order[j])
    && (forall i, m | 0 <= i < |order| && m in Locals(specs[order[i]].references) :: ComesBefore(order, i, m))
  }

  ghost predicate Inv(w: World) {
    KafkaSchemas.Valid(w) && VersionsAreEarned(w) && Topological(w.specs, w.order)
  }

  /** What a read returns with a version, resolving relies on; so the referents of a posted schema are registered. */
  lemma ReferentsAreRegistered(w: World, references: seq<Reference>, view: View, m: Name)
    requires Inv(w) && Resolve(w, references, view).Some? && m in Locals(references)
    ensures m in w.order
  {
    var i :| 0 <= i < |references| && references[i].Local? && references[i].schema == m;
    ResolveMeaning(w, references, view);
    assert ResolveOne(w, references[i], view).Some?;
    assert w.stored[m][view[m]].version >= 1;
  }

  lemma OneMoreIsTopological(specs: map<Name, Spec>, order: seq<Name>, n: Name)
    requires Topological(specs, order) && n in specs && n !in order
    requires forall m | m in Locals(specs[n].references) :: m in order
    ensures Topological(specs, order + [n])
  {
    var longer := order + [n];
    forall i, m | 0 <= i < |longer| && m in Locals(specs[longer[i]].references)
      ensures ComesBefore(longer, i, m)
    {
      if i < |order| {
        assert ComesBefore(order, i, m);
        var j :| 0 <= j < i && order[j] == m;
        assert longer[j] == m;
      } else {
        var j :| 0 <= j < |order| && order[j] == m;
        assert longer[j] == m;
      }
    }
  }

  lemma NextKeepsTopological(w: World, p: Pass, next: World)
    requires Inv(w) && Next(w, p) == Some(next)
    ensures Topological(next.specs, next.order)
  {
    if next.order != w.order {
      EffectObject(w, w.specs[p.name], p);
      forall m | m in Locals(w.specs[p.name].references)
        ensures m in w.order
      {
        ReferentsAreRegistered(w, w.specs[p.name].references, p.apply, m);
      }
      OneMoreIsTopological(w.specs, w.order, p.name);
    }
  }

  lemma NextKeepsInv(w: World, p: Pass, next: World)
    requires Inv(w) && Next(w, p) == Some(next)
    ensures Inv(next) && next.specs == w.specs && w.order <= next.order
  {
    NextKeepsValid(w, p, next);
    NextKeepsTopological(w, p, next);
    var n := p.name;
    var o := Effect(w, w.specs[n], p).obj;
    EffectObject(w, w.specs[n], p);
    forall i | 0 <= i < |next.stored[n]|
      ensures next.stored[n][i].version >= 1 ==> n in next.order
    {
      PersistedStates(w.stored[n], p.seen, o, p.status, p.patch, i);
    }
  }

  lemma {:induction false} RunKeepsInv(w: World, passes: seq<Pass>, end: World)
    requires Inv(w) && Run(w, passes) == Some(end)
    ensures Inv(end) && end.specs == w.specs && w.order <= end.order
    decreases |passes|
  {
    if passes != [] {
      var next := Next(w, passes[0]).value;
      NextKeepsInv(w, passes[0], next);
      RunKeepsInv(next, passes[1..], end);
    }
  }

  /** In every run from an unregistered start, first registrations happen in a topological order of the references. */
  lemma RegistrationIsTopological(w: World, passes: seq<Pass>, end: World)
    requires Unregistered(w) && Run(w, passes) == Some(end)
    ensures end.specs == w.specs && Topological(w.specs, end.order)
    ensures forall n, i | n in end.stored && 0 <= i < |end.stored[n]| :: end.stored[n][i].version >= 1 ==>
            n in end.order
  {
    RunKeepsInv(w, passes, end);
  }

  lemma JoinsLayer(g: Graph, n: Name, k: nat)
    requires n in g && forall m | m in g[n] :: m in Layer(g, k)
    ensures n in Layer(g, k + 1)
  {
  }

  lemma {:induction false} OrderIsLayered(specs: map<Name, Spec>, order: seq<Name>, i: nat)
    requires Topological(specs, order) && i < |order|
    ensures order[i] in Layer(References(specs), i + 1)
    decreases i
  {
    var g := References(specs);
    forall m | m in g[order[i]]
      ensures m in Layer(g, i)
    {
      assert ComesBefore(order, i, m);
      var j :| 0 <= j < i && order[j] == m;
      OrderIsLayered(specs, order, j);
      LaterLayer(g, j + 1, i);
    }
    JoinsLayer(g, order[i], i);
  }

  lemma OrderReachesNoCycle(specs: map<Name, Spec>, order: seq<Name>, chain: seq<Name>, cycle: seq<Name>)
    requires Topological(specs, order)
    requires IsChain(References(specs), chain) && chain != []
    requires IsCycle(References(specs), cycle) && chain[|chain| - 1] == cycle[0]
    ensures chain[0] !in order
  {
    if chain[0] in order {
      var i :| 0 <= i < |order| && order[i] == chain[0];
      OrderIsLayered(specs, order, i);
      LayeredReachesNoCycle(References(specs), i + 1, chain, cycle);
      assert false;
    }
  }

  lemma OrderReachesNothingMissing(specs: map<Name, Spec>, order: seq<Name>, chain: seq<Name>, missing: Name)
    requires Topological(specs, order)
    requires IsChain(References(specs), chain) && chain != []
    requires missing in References(specs)[chain[|chain| - 1]] && missing !in specs
    ensures chain[0] !in order
  {
    if chain[0] in order {
      var i :| 0 <= i < |order| && order[i] == chain[0];
      OrderIsLayered(specs, order, i);
      LayeredReachesNothingMissing(References(specs), i + 1, chain, missing);
      assert false;
    }
  }

  /** A schema from which references lead to a cycle is never registered. */
  lemma CyclesAreNeverRegistered(w: World, passes: seq<Pass>, end: World, chain: seq<Name>, cycle: seq<Name>)
    requires Unregistered(w) && Run(w, passes) == Some(end)
    requires IsChain(References(w.specs), chain) && chain != []
    requires IsCycle(References(w.specs), cycle) && chain[|chain| - 1] == cycle[0]
    ensures chain[0] !in end.order
  {
    RegistrationIsTopological(w, passes, end);
    OrderReachesNoCycle(w.specs, end.order, chain, cycle);
  }

  /** Nor is one from which references lead to a schema that does not exist. */
  lemma DanglingIsNeverRegistered(w: World, passes: seq<Pass>, end: World, chain: seq<Name>, missing: Name)
    requires Unregistered(w) && Run(w, passes) == Some(end)
    requires IsChain(References(w.specs), chain) && chain != []
    requires missing in References(w.specs)[chain[|chain| - 1]] && missing !in w.specs
    ensures chain[0] !in end.order
  {
    RegistrationIsTopological(w, passes, end);
    OrderReachesNothingMissing(w.specs, end.order, chain, missing);
  }

  /** What is not registered has not touched the registry: a subject stays as it was until one of its schemas
      is registered. */
  lemma {:induction false} UnregisteredSubjectUntouched(w: World, passes: seq<Pass>, end: World, subject: string)
    requires Run(w, passes) == Some(end)
    requires forall n | n in end.order && n in w.specs :: w.specs[n].subject != subject
    ensures w.order <= end.order && w.specs == end.specs
    ensures Versions(end.registry, subject) == Versions(w.registry, subject)
    ensures subject in end.registry.subjects <==> subject in w.registry.subjects
    decreases |passes|
  {
    if passes != [] {
      var p := passes[0];
      var next := Next(w, p).value;
      UnregisteredSubjectUntouched(next, passes[1..], end, subject);
      assert p.name in next.order ==> p.name in end.order;
      RegistryChangesOnlyByPosting(w, w.specs[p.name], p);
    }
  }

  lemma RegistryChangesOnlyByPosting(w: World, spec: Spec, p: Pass)
    requires p.name in w.stored && p.seen < |w.stored[p.name]|
    ensures !Effect(w, spec, p).posted ==> Effect(w, spec, p).registry == w.registry
    ensures forall s | s != spec.subject ::
              (s in Effect(w, spec, p).registry.subjects <==> s in w.registry.subjects) &&
              Versions(Effect(w, spec, p).registry, s) == Versions(w.registry, s)
  {
  }
}
