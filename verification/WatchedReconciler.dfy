/** One pass of the managed reconciler and one call of the watch controller, as they work on the
    API server; each is proved to be a run of the machine in Invalidation. */
module WatchedReconciler {
  import opened Base
  import opened AnnotationPatch
  import opened Numerals
  import opened Invalidation

  /** The object in the hands of a pass. The client overwrites it with the server's answer to every write. */
  class ManagedObject {
    var version: nat
    var content: Object

    constructor (version: nat, content: Object)
      ensures this.version == version && this.content == content
    {
      this.version, this.content := version, content;
    }
  }

  /** How a pass gets past its preconditions: the finalizer of the token Secret, the references, its own finalizer and
      the client. */
  datatype Gate =
    | Passed
    | RefsPending   // a referenced object is missing or not ready
    | RefsFail      // references cannot be resolved, which the status reports
    | Unavailable   // any other failure before Observe

  /** What the remote side and the connection Secret do to one pass. */
  datatype Surroundings = Surroundings(
    gate: Gate,
    observeError: bool,
    present: bool,        // the resource exists at Aiven
    matches: bool,       // and looks like the spec, as far as Observe compares it
    published: bool,     // the connection Secret can be written
    applied: bool,       // Create or Update succeeds
    marked: bool,        // a failing Create or Update got as far as marking the object running
    status: string,      // the conditions the pass leaves behind
    writeStatus: Fate,
    writeAnnotations: Fate)

  predicate FaultFree(s: Surroundings) {
    s.writeStatus.Acknowledged? && s.writeAnnotations.Acknowledged?
  }

  /** Which passes are under way once a pass has written its status. */
  ghost function AfterStatus(ok: bool, id: nat, pass: Pass, others: map<nat, Pass>, version: nat): map<nat, Pass> {
    var patch := Diff(pass.orig.annotations, pass.obj.annotations);
    if ok && patch != map[] then others[id := pass.(version := version, phase := Patching(patch))] else others
  }

  lemma SlotFacts(others: map<nat, Pass>, id: nat, before: Pass, after: Pass)
    requires id !in others
    ensures Without(others[id := before], id) == others
    ensures others[id := before][id := after] == others[id := after]
  {
  }

  /** The two writes of a pass together make of the object it read the one it means. */
  lemma PersistedContent(orig: Object, obj: Object)
    ensures var patch := Diff(orig.annotations, obj.annotations);
            var stored := orig.(status := obj.status);
            && (patch == map[] && obj.generation == orig.generation ==> stored == obj)
            && (obj.generation == orig.generation ==>
                  stored.(annotations := ApplyMergePatch(stored.annotations, patch)) == obj)
  {
    DiffIsLeast(orig.annotations, obj.annotations, map[]);
    DiffReproducesCurrent(orig.annotations, obj.annotations);
  }

  /** The annotation patch as a step of the machine. */
  lemma AnnotationsAreWritten(w: World, id: nat, pass: Pass, others: map<nat, Pass>, fate: Fate)
    requires w.versions != [] && id !in others && w.passes == others[id := pass] && pass.phase.Patching?
    requires fate.Rejected? || pass.version == |w.versions|
    ensures var annotations := ApplyMergePatch(Latest(w).annotations, pass.phase.patch);
            var marks := fate.Applied() && SetsMark(pass.phase.patch);
            Next(w, WriteAnnotations(id, fate)) == Some(w.(
              versions := if fate.Applied() then Append(w.versions, Latest(w).(annotations := annotations))
                          else w.versions,
              clock := w.clock + 1, markApply := if marks then AppliedAt(pass) else w.markApply,
              markGeneration := if marks then pass.orig.generation else w.markGeneration, passes := others))
  {
    SlotFacts(others, id, pass, pass);
  }

  lemma OtherMarksDoNotCount(o: Object)
    ensures forall g: nat | g != o.generation && Lookup(o.annotations, PROCESSED) == Some(Decimal(g)) ::
              Lookup(o.annotations, PROCESSED) != Some(Decimal(o.generation))
  {
    forall g: nat | g != o.generation
      ensures Decimal(g) != Decimal(o.generation)
    {
      DecimalIsInjective(g, o.generation);
    }
  }

  lemma ReadyStaysComplete(o: Object)
    ensures IsReadyToUse(o) ==> Completed(o) == o
  {
    if IsReadyToUse(o) {
      assert o.annotations[PROCESSED := o.annotations[PROCESSED]] == o.annotations;
    }
  }

  /** The annotations after a Create or Update. */
  function Applied(o: Object, running: bool, processed: bool): Annotations {
    o.annotations + (if running then map[RUNNING := "true"] else map[])
                  + (if processed then map[PROCESSED := Decimal(o.generation)] else map[])
  }

  lemma ApplyPassApplies(p: Pass, succeeded: bool, marked: bool, status: string)
    ensures ApplyPass(p, succeeded, marked, status) ==
            p.(obj := p.obj.(status := status, annotations := Applied(p.obj, succeeded || marked, succeeded)),
               phase := Persisting)
  {
    KeysDiffer();
    var before := p.obj.annotations;
    assert Applied(p.obj, true, true) == before[RUNNING := "true"][PROCESSED := Decimal(p.obj.generation)];
    assert Applied(p.obj, true, false) == before[RUNNING := "true"];
    assert Applied(p.obj, false, false) == before;
  }

  /** What a pass makes of the object it reads, if nothing goes wrong with its writes. Only a Create or Update that
      succeeds, and whose connection details are published, marks the generation as processed. */
  function PassResult(read: Object, s: Surroundings): Object {
    if Starts(read, s) then
      read.(status := s.status,
            annotations := Applied(read, s.applied || s.marked, s.applied && s.published))
    else read.(status := s.status)
  }

  /** Create or Update starts unless the resource is there and matches, and the object is marked as running and as
      processed in its generation. */
  predicate Starts(read: Object, s: Surroundings) {
    !s.observeError &&
    !(s.present && s.matches && RUNNING in read.annotations &&
      Lookup(read.annotations, PROCESSED) == Some(Decimal(read.generation)))
  }

  lemma TriggerIsStep(w: World, stamp: string, version: nat, after: Object, next: World)
    requires 0 < version <= |w.versions| && after == Triggered(Latest(w), w.versions[version - 1], stamp)
    requires next == WithTrigger(w, after)
    ensures Next(w, Trigger(stamp, version)) == Some(next)
  {
  }

  class ApiServer {
    var versions: seq<Object>
    ghost var clock: nat
    ghost var lastApply: nat
    ghost var markApply: nat
    ghost var markGeneration: nat
    ghost var lastClear: nat
    ghost var lastTrigger: nat

    ghost function Snapshot(passes: map<nat, Pass>): World
      reads this
    {
      World(versions, passes, clock, lastApply, markApply, markGeneration, lastClear, lastTrigger)
    }

    function Current(): Object
      reads this
      requires versions != []
    {
      versions[|versions| - 1]
    }

    /** The pass was given the current object and has not touched its spec. */
    ghost predicate Holds(pass: Pass)
      reads this
      requires versions != []
    {
      pass.version == |versions| && pass.orig == Current() && pass.obj.generation == pass.orig.generation
    }

    function Judge(version: nat, fate: Fate): Fate
      reads this
    {
      if version == |versions| then fate else Rejected
    }

    /** Status().Update: replaces the status, and only the status, of the current object. */
    method UpdateStatus(obj: ManagedObject, fate: Fate) returns (ok: bool)
      requires versions != []
      modifies `versions, obj
      ensures versions == if old(Judge(obj.version, fate)).Applied()
                          then Append(old(versions), old(Current().(status := obj.content.status)))
                          else old(versions)
      ensures ok <==> old(Judge(obj.version, fate)).Acknowledged?
      ensures ok ==> obj.version == |versions| && obj.content == Current()
    {
      var judged := Judge(obj.version, fate);
      if judged.Applied() {
        versions := Append(versions, versions[|versions| - 1].(status := obj.content.status));
      }
      ok := judged.Acknowledged?;
      if ok {
        obj.version, obj.content := |versions|, versions[|versions| - 1];
      }
    }

    /** A merge patch that carries a resource version. */
    method PatchAnnotations(obj: ManagedObject, patch: MergePatch, fate: Fate) returns (ok: bool)
      requires versions != []
      modifies `versions, obj
      ensures versions == if old(Judge(obj.version, fate)).Applied()
                          then Append(old(versions), old(Current().(
                                 annotations := ApplyMergePatch(Current().annotations, patch))))
                          else old(versions)
      ensures ok <==> old(Judge(obj.version, fate)).Acknowledged?
      ensures ok ==> obj.version == |versions| && obj.content == Current()
    {
      var judged := Judge(obj.version, fate);
      if judged.Applied() {
        var latest := versions[|versions| - 1];
        versions := Append(versions, latest.(annotations := ApplyMergePatch(latest.annotations, patch)));
      }
      ok := judged.Acknowledged?;
      if ok {
        obj.version, obj.content := |versions|, versions[|versions| - 1];
      }
    }

    /** The status write of a pass. */
    method WriteStatusStep(obj: ManagedObject, fate: Fate,
                           ghost id: nat, ghost pass: Pass, ghost others: map<nat, Pass>)
      returns (ok: bool, ghost a: Action)
      requires versions != [] && id !in others
      requires pass.version == obj.version && pass.obj == obj.content && pass.phase.Persisting? && pass.obj != pass.orig
      modifies `versions, `clock, obj
      ensures versions != []
      ensures Next(old(Snapshot(others[id := pass])), a) ==
              Some(Snapshot(AfterStatus(ok, id, pass, others, |versions|)))
      ensures ok ==> obj.version == |versions| && obj.content == Current()
      ensures fate.Acknowledged? && old(pass.version == |versions|) ==>
                ok && Current() == old(Current()).(status := pass.obj.status)
    {
      SlotFacts(others, id, pass, pass);
      ghost var patch := Diff(pass.orig.annotations, pass.obj.annotations);
      a := WriteStatus(id, Judge(obj.version, fate));
      ok := UpdateStatus(obj, fate);
      clock := clock + 1;
      SlotFacts(others, id, pass, pass.(version := |versions|, phase := Patching(patch)));
    }

    /** The annotation patch of a pass. */
    method WriteAnnotationsStep(obj: ManagedObject, patch: MergePatch, fate: Fate,
                                ghost id: nat, ghost pass: Pass, ghost others: map<nat, Pass>)
      returns (ok: bool, ghost a: Action)
      requires versions != [] && id !in others
      requires pass.version == obj.version && pass.phase == Patching(patch)
      modifies `versions, `clock, `markApply, `markGeneration, obj
      ensures versions != []
      ensures Next(old(Snapshot(others[id := pass])), a) == Some(Snapshot(others))
      ensures fate.Acknowledged? && old(pass.version == |versions|) ==>
                ok && Current() == old(Current().(annotations := ApplyMergePatch(Current().annotations, patch)))
      ensures !SetsMark(patch) ==> markApply == old(markApply)
    {
      AnnotationsAreWritten(Snapshot(others[id := pass]), id, pass, others, Judge(obj.version, fate));
      a := WriteAnnotations(id, Judge(obj.version, fate));
      if Judge(obj.version, fate).Applied() && SetsMark(patch) {
        markApply, markGeneration := AppliedAt(pass), pass.orig.generation;
      }
      ok := PatchAnnotations(obj, patch, fate);
      clock := clock + 1;
    }

    /** The write-back: two writes, or none if the pass changed nothing. */
    method PersistReconcileState(orig: Object, obj: ManagedObject, s: Surroundings,
                                 ghost id: nat, ghost pass: Pass, ghost others: map<nat, Pass>)
      returns (ok: bool, ghost actions: seq<Action>)
      requires versions != [] && id !in others
      requires pass.version == obj.version && pass.orig == orig && pass.obj == obj.content && pass.phase.Persisting?
      modifies `versions, `clock, `markApply, `markGeneration, obj
      ensures versions != []
      ensures Run(old(Snapshot(others[id := pass])), actions) == Some(Snapshot(others))
      // Without faults, and with nobody else at work, the object ends up exactly as the pass made it.
      ensures FaultFree(s) && old(Holds(pass)) ==> ok && Current() == pass.obj
      // A pass that has not changed the mark does not write it.
      ensures Lookup(pass.obj.annotations, PROCESSED) == Lookup(orig.annotations, PROCESSED) ==>
                markApply == old(markApply)
    {
      ghost var start := Snapshot(others[id := pass]);
      if obj.content == orig {
        SlotFacts(others, id, pass, pass);
        clock := clock + 1;
        actions := [WriteStatus(id, Rejected)];
        RunOneMore(start, [], start, WriteStatus(id, Rejected), Snapshot(others));
        return true, actions;
      }
      // After the first write the copy holds what the server answered, so the difference is taken before it.
      var patch := AnnotationChanges(orig.annotations, obj.content.annotations);
      PersistedContent(orig, pass.obj);
      ghost var a;
      ok, a := WriteStatusStep(obj, s.writeStatus, id, pass, others);
      ghost var mid := Snapshot(AfterStatus(ok, id, pass, others, |versions|));
      RunOneMore(start, [], start, a, mid);
      actions := [a];
      if !ok || patch == map[] {
        return;
      }
      ghost var patching := pass.(version := |versions|, phase := Patching(patch));
      ok, a := WriteAnnotationsStep(obj, patch, s.writeAnnotations, id, patching, others);
      RunOneMore(start, actions, mid, a, Snapshot(others));
      actions := actions + [a];
    }

    /** The mark that readiness rests on. */
    method CompleteReconcileSuccess(obj: ManagedObject)
      modifies obj`content
      ensures obj.content == Completed(old(obj.content))
    {
      obj.content := obj.content.(annotations := obj.content.annotations[PROCESSED := Decimal(obj.content.generation)]);
    }

    /** Observe, and completion when the resource is up to date. */
    method ObserveStep(obj: ManagedObject, s: Surroundings,
                       ghost id: nat, ghost pass: Pass, ghost others: map<nat, Pass>)
      returns (ok: bool, apply: bool, ghost a: Action, ghost next: Pass)
      requires versions != [] && id !in others
      requires pass.obj == obj.content && pass.phase.Observing?
      modifies `clock, `lastApply, obj`content
      ensures Next(old(Snapshot(others[id := pass])), a) == Some(Snapshot(others[id := next]))
      ensures next.version == pass.version && next.orig == pass.orig && next.obj == obj.content
      ensures next.phase == if apply then Applying else Persisting
      // Create or Update starts unless the resource is there and matches, and the object is marked as running and as
      // processed in its generation. A mark of any other generation does not count.
      ensures apply <==> !s.observeError &&
                         !(s.present && s.matches && RUNNING in old(obj.content).annotations &&
                           Lookup(old(obj.content).annotations, PROCESSED) ==
                           Some(Decimal(old(obj.content).generation)))
      ensures forall g: nat | g != old(obj.content).generation &&
                              Lookup(old(obj.content).annotations, PROCESSED) == Some(Decimal(g)) ::
                !s.observeError ==> apply
      ensures apply ==> lastApply == old(clock) && ok
      ensures !apply ==> lastApply == old(lastApply) && (ok <==> !s.observeError && s.published)
      ensures obj.content == if apply then old(obj.content) else old(obj.content).(status := s.status)
    {
      OtherMarksDoNotCount(obj.content);
      ReadyStaysComplete(obj.content.(status := s.status));
      ghost var start := Snapshot(others[id := pass]);
      ok := !s.observeError;
      var upToDate := IsReadyToUse(obj.content) && s.matches;
      apply := ok && (!s.present || !upToDate);
      if apply {
        a := Observe(id, NeedsApply);
        lastApply := clock;
      } else {
        ok := ok && s.published;
        a := Observe(id, if ok then UpToDate(s.status) else Failed(s.status));
        obj.content := obj.content.(status := s.status);
        if ok {
          CompleteReconcileSuccess(obj);
        }
      }
      next := ObservePass(pass, a.outcome, clock).value;
      SlotFacts(others, id, pass, next);
      clock := clock + 1;
    }

    /** Create or Update. */
    method ApplyStep(obj: ManagedObject, s: Surroundings, ghost id: nat, ghost pass: Pass, ghost others: map<nat, Pass>)
      returns (ok: bool, ghost a: Action, ghost next: Pass)
      requires versions != [] && id !in others
      requires pass.obj == obj.content && pass.phase.Applying?
      modifies `clock, obj`content
      ensures Next(old(Snapshot(others[id := pass])), a) == Some(Snapshot(others[id := next]))
      ensures next.version == pass.version && next.orig == pass.orig && next.obj == obj.content &&
              next.phase.Persisting?
      ensures ok <==> s.applied && s.published
      // A failed one leaves the mark as it was, although it may mark the object as running.
      ensures obj.content == old(obj.content).(
                               status := s.status,
                               annotations := Applied(old(obj.content), s.applied || s.marked, ok))
    {
      ok := s.applied && s.published;
      ApplyPassApplies(pass, ok, s.applied || s.marked, s.status);
      UpdateAnnotations(obj, s.status, s.applied || s.marked, ok);
      a := Apply(id, ok, s.applied || s.marked, s.status);
      next := ApplyPass(pass, ok, s.applied || s.marked, s.status);
      SlotFacts(others, id, pass, next);
      clock := clock + 1;
    }

    method UpdateAnnotations(obj: ManagedObject, status: string, running: bool, processed: bool)
      modifies obj`content
      ensures obj.content == old(obj.content).(
                               status := status, annotations := Applied(old(obj.content), running, processed))
    {
      obj.content := obj.content.(status := status);
      if running {
        obj.content := obj.content.(annotations := obj.content.annotations[RUNNING := "true"]);
      }
      if processed {
        CompleteReconcileSuccess(obj);
      }
    }

    /** References that cannot be resolved end the pass with a status that says so. */
    method ReportUnresolved(version: nat, s: Surroundings, ghost id: nat, ghost others: map<nat, Pass>)
      returns (ghost actions: seq<Action>)
      requires 0 < version <= |versions| && id !in others
      modifies this
      ensures Run(old(Snapshot(others)), actions) == Some(Snapshot(others))
      ensures lastApply == old(lastApply) && lastClear == old(lastClear) && lastTrigger == old(lastTrigger)
      ensures markApply == old(markApply)
      ensures FaultFree(s) && old(version == |versions|) ==>
                versions != [] && Current() == old(versions)[version - 1].(status := s.status)
    {
      var orig := versions[version - 1];
      var obj := new ManagedObject(version, orig);
      ghost var start := Snapshot(others);
      ghost var pass := Pass(version, orig, orig, Observing, None);
      clock := clock + 1;
      RunOneMore(start, [], start, Begin(id, version), Snapshot(others[id := pass]));
      actions := [Begin(id, version)];
      ghost var here := Snapshot(others[id := pass]);
      ghost var failed := ObservePass(pass, Outcome.Failed(s.status), clock).value;
      obj.content := obj.content.(status := s.status);
      SlotFacts(others, id, pass, failed);
      clock := clock + 1;
      RunOneMore(start, actions, here, Observe(id, Outcome.Failed(s.status)), Snapshot(others[id := failed]));
      actions := actions + [Observe(id, Outcome.Failed(s.status))];
      var persisted;
      ghost var more;
      persisted, more := PersistReconcileState(orig, obj, s, id, failed, others);
      RunAppend(start, actions, more);
      actions := actions + more;
    }

    /** A pass on an object that is not being deleted and already carries its finalizer. */
    method Reconcile(version: nat, s: Surroundings, ghost id: nat, ghost others: map<nat, Pass>)
      returns (ok: bool, ghost actions: seq<Action>)
      requires 0 < version <= |versions| && id !in others
      modifies this
      ensures Run(old(Snapshot(others)), actions) == Some(Snapshot(others))
      // Nothing happens while references are pending, or when the pass fails before them.
      ensures s.gate.RefsPending? || s.gate.Unavailable? ==>
                actions == [] && Snapshot(others) == old(Snapshot(others))
      // Nothing is applied before the preconditions are met.
      ensures !s.gate.Passed? ==> lastApply == old(lastApply)
      ensures ok ==> s.gate.Passed? || s.gate.RefsPending?
      // A pass that meets no fault and has the current object leaves it ready.
      ensures s.gate.Passed? && !s.observeError && s.published && s.applied && FaultFree(s) &&
              old(version == |versions|) ==>
                ok && versions != [] && IsReadyToUse(Current())
      // Create or Update starts exactly if it has to; a mark of another generation never prevents it.
      ensures s.gate.Passed? ==>
                lastApply == if Starts(old(versions)[version - 1], s) then old(clock) + 1 else old(lastApply)
      ensures forall g: nat | g != old(versions)[version - 1].generation &&
                              Lookup(old(versions)[version - 1].annotations, PROCESSED) == Some(Decimal(g)) ::
                s.gate.Passed? && !s.observeError ==> lastApply == old(clock) + 1
      ensures s.gate.RefsFail? && FaultFree(s) && old(version == |versions|) ==>
                versions != [] && Current() == old(versions)[version - 1].(status := s.status)
      // What the object is afterwards, if the writes of the pass go through and it was the current one.
      ensures s.gate.Passed? && FaultFree(s) && old(version == |versions|) ==>
                versions != [] && Current() == PassResult(old(versions)[version - 1], s)
      // Whatever becomes of the writes, only an apply that succeeded marks the object.
      ensures !(s.gate.Passed? && Starts(old(versions)[version - 1], s) && s.applied && s.published) ==>
                markApply == old(markApply)
      ensures lastClear == old(lastClear) && lastTrigger == old(lastTrigger)
    {
      match s.gate {
        case RefsPending =>
          return true, [];
        case Unavailable =>
          return false, [];
        case RefsFail =>
          actions := ReportUnresolved(version, s, id, others);
          ok := false;
        case Passed =>
          OtherMarksDoNotCount(versions[version - 1]);
          ok, actions := ReconcileResolved(version, s, id, others);
      }
    }

    /** Observe, and Create or Update if it has to be. */
    method ObserveAndApply(obj: ManagedObject, s: Surroundings, ghost id: nat, ghost pass: Pass,
                           ghost others: map<nat, Pass>)
      returns (ok: bool, ghost actions: seq<Action>, ghost next: Pass)
      requires versions != [] && id !in others
      requires pass.obj == obj.content && pass.phase.Observing?
      modifies `clock, `lastApply, obj`content
      ensures Run(old(Snapshot(others[id := pass])), actions) == Some(Snapshot(others[id := next]))
      ensures next.version == pass.version && next.orig == pass.orig && next.phase.Persisting?
      ensures next.obj == obj.content == PassResult(old(obj.content), s)
      ensures lastApply == if Starts(old(obj.content), s) then old(clock) else old(lastApply)
      ensures ok <==> !s.observeError && s.published && (Starts(old(obj.content), s) ==> s.applied)
    {
      ghost var start, a := Snapshot(others[id := pass]), Abandon(id);
      var apply;
      ok, apply, a, next := ObserveStep(obj, s, id, pass, others);
      ghost var here := Snapshot(others[id := next]);
      RunOneMore(start, [], start, a, here);
      actions := [a];
      if apply {
        ok, a, next := ApplyStep(obj, s, id, next, others);
        RunOneMore(start, actions, here, a, Snapshot(others[id := next]));
        actions := actions + [a];
      }
    }

    /** The pass from Observe on. */
    method ReconcileResolved(version: nat, s: Surroundings, ghost id: nat, ghost others: map<nat, Pass>)
      returns (ok: bool, ghost actions: seq<Action>)
      requires 0 < version <= |versions| && id !in others
      modifies this
      ensures Run(old(Snapshot(others)), actions) == Some(Snapshot(others))
      ensures !s.observeError && s.published && s.applied && FaultFree(s) && old(version == |versions|) ==> ok
      ensures FaultFree(s) && old(version == |versions|) ==>
                versions != [] && Current() == PassResult(old(versions)[version - 1], s)
      ensures lastApply == if Starts(old(versions)[version - 1], s) then old(clock) + 1 else old(lastApply)
      ensures !(Starts(old(versions)[version - 1], s) && s.applied && s.published) ==> markApply == old(markApply)
      ensures lastClear == old(lastClear) && lastTrigger == old(lastTrigger)
    {
      var orig := versions[version - 1];
      var obj := new ManagedObject(version, orig);
      ghost var start := Snapshot(others);
      ghost var pass := Pass(version, orig, orig, Observing, None);
      clock := clock + 1;
      RunOneMore(start, [], start, Begin(id, version), Snapshot(others[id := pass]));
      actions := [Begin(id, version)];
      ghost var more;
      ok, more, pass := ObserveAndApply(obj, s, id, pass, others);
      RunAppend(start, actions, more);
      actions := actions + more;
      var persisted;
      persisted, more := PersistReconcileState(orig, obj, s, id, pass, others);
      RunAppend(start, actions, more);
      actions := actions + more;
      ok := ok && persisted;
    }

    /** Changes the copy, sends the difference, and the server applies it to what it has. */
    method SendTrigger(original: Object, latest: Object, stamp: string) returns (after: Object)
      ensures after == Triggered(latest, original, stamp)
      ensures PROCESSED in original.annotations ==> PROCESSED !in after.annotations
    {
      TriggeredLookups(latest, original, stamp);
      var annotations := original.annotations;
      annotations := annotations[SECRET_UPDATED := stamp];
      annotations := annotations - {PROCESSED};
      var patch := AnnotationChanges(original.annotations, annotations);
      after := latest.(annotations := ApplyMergePatch(latest.annotations, patch));
    }

    /** A call of the watch controller, made from some version of the object. Its patch carries no resource version, so
        that it applies to the current object; if no copy can be read or the patch is refused, nothing happens. */
    method TriggerReconciliation(read: Option<nat>, stamp: string, fate: Fate, ghost passes: map<nat, Pass>)
      returns (ok: bool, ghost actions: seq<Action>)
      requires versions != [] && (read.Some? ==> 0 < read.value <= |versions|)
      modifies this
      ensures Run(old(Snapshot(passes)), actions) == Some(Snapshot(passes))
      ensures actions == if read.Some? && fate.Applied() then [Trigger(stamp, read.value)] else []
      ensures ok == (read.Some? && fate.Acknowledged?)
      // The mark is gone unless the copy came without it.
      ensures ok ==> versions != [] && (PROCESSED in old(versions)[read.value - 1].annotations ==>
                PROCESSED !in versions[|versions| - 1].annotations)
    {
      ok, actions := read.Some? && fate.Acknowledged?, [];
      if read.None? || !fate.Applied() {
        return;
      }
      ghost var start := Snapshot(passes);
      PatchFrom(read.value, stamp, passes);
      actions := [Trigger(stamp, read.value)];
      RunOneMore(start, [], start, Trigger(stamp, read.value), Snapshot(passes));
    }

    method PatchFrom(version: nat, stamp: string, ghost passes: map<nat, Pass>)
      requires 0 < version <= |versions|
      modifies this
      ensures Next(old(Snapshot(passes)), Trigger(stamp, version)) == Some(Snapshot(passes))
      ensures versions != [] && (PROCESSED in old(versions)[version - 1].annotations ==>
                PROCESSED !in versions[|versions| - 1].annotations)
    {
      ghost var start := Snapshot(passes);
      var original, latest := versions[version - 1], versions[|versions| - 1];
      var after := SendTrigger(original, latest, stamp);
      StoreTrigger(after);
      TriggerIsStep(start, stamp, version, after, Snapshot(passes));
    }

    method StoreTrigger(after: Object)
      requires versions != []
      modifies this
      ensures forall passes :: Snapshot(passes) == WithTrigger(old(Snapshot(passes)), after)
    {
      var latest := versions[|versions| - 1];
      versions := Append(versions, after);
      lastTrigger := clock;
      if after != latest && PROCESSED !in after.annotations {
        lastClear := clock;
      }
      clock := clock + 1;
    }
  }
}
