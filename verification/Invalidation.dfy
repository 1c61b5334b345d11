/** Managed reconciler passes running beside the secret watch controller, on one object.

    The watch controller invalidates an object, when a Secret it reads changes, by removing the
    processed-generation annotation. Passes hold copies of the object that may be old, any
    number of passes may be under way, and each of their writes may fail or report a failure
    although it was applied. The kinds are those with a Secret source, ServiceUser and
    ClickhouseUser: their Observe calls an object up to date only if it is ready. */
module Invalidation {
  import opened Base
  import opened AnnotationPatch
  import opened Numerals

  const PROCESSED := "controllers.aiven.io/generation-was-processed"
  const RUNNING := "controllers.aiven.io/instance-is-running"
  const SECRET_UPDATED := "controllers.aiven.io/secret-source-updated"

  datatype Object = Object(generation: nat, annotations: Annotations, status: string)

  predicate HasLatestGeneration(o: Object) {
    Lookup(o.annotations, PROCESSED) == Some(Decimal(o.generation))
  }

  predicate HasIsRunningAnnotation(o: Object) {
    RUNNING in o.annotations
  }

  predicate IsReadyToUse(o: Object) {
    HasIsRunningAnnotation(o) && HasLatestGeneration(o)
  }

  function WithAnnotation(o: Object, key: string, value: string): Object {
    o.(annotations := o.annotations[key := value])
  }

  /** What a pass records when it succeeds. */
  function Completed(o: Object): Object {
    WithAnnotation(o, PROCESSED, Decimal(o.generation))
  }

  /** What the watch controller makes of the object it reads. */
  function Invalidated(o: Object, stamp: string): Object {
    o.(annotations := o.annotations[SECRET_UPDATED := stamp] - {PROCESSED})
  }

  /** It sends the difference to what it read, without a resource version, and the server applies that to the current
      object. */
  function Triggered(latest: Object, read: Object, stamp: string): Object {
    latest.(annotations :=
      ApplyMergePatch(latest.annotations, Diff(read.annotations, Invalidated(read, stamp).annotations)))
  }

  // ---------------------------------------------------------------- the machine

  datatype Phase = Observing | Applying | Persisting | Patching(patch: MergePatch)

  /** A pass holds the object as it was read, its own changed copy, and the resource version of both. */
  datatype Pass = Pass(version: nat, orig: Object, obj: Object, phase: Phase, appliedAt: Option<nat>)

  datatype World = World(
    versions: seq<Object>,    // every stored state of the object, the current one last
    passes: map<nat, Pass>,
    clock: nat,
    // history
    lastApply: nat,           // when a Create or Update last started
    markApply: nat,           // when the pass that wrote the processed mark started its Create or Update
    markGeneration: nat,      // the generation that this pass had read
    lastClear: nat,           // when the watch controller last changed the object into one without the mark
    lastTrigger: nat)         // when the watch controller last tried to

  datatype Outcome = Failed(status: string) | UpToDate(status: string) | NeedsApply

  datatype Action =
    | Edit(generation: nat, annotations: Annotations)  // a user or another controller
    | Trigger(stamp: string, version: nat)             // made from this version of the object
    | Begin(id: nat, version: nat)
    | Observe(id: nat, outcome: Outcome)
    | Apply(id: nat, succeeded: bool, marked: bool, status: string)
    | WriteStatus(id: nat, fate: Fate)
    | WriteAnnotations(id: nat, fate: Fate)
    | Abandon(id: nat)

  function Latest(w: World): Object
    requires w.versions != []
  {
    w.versions[|w.versions| - 1]
  }

  /** A write that changes nothing keeps the resource version. */
  function Append(versions: seq<Object>, o: Object): seq<Object> {
    if versions != [] && versions[|versions| - 1] == o then versions else versions + [o]
  }

  function Without(passes: map<nat, Pass>, id: nat): map<nat, Pass> {
    passes - {id}
  }

  function ObservePass(p: Pass, outcome: Outcome, now: nat): Option<Pass> {
    match outcome
    case Failed(status) =>
      Some(p.(obj := p.obj.(status := status), phase := Persisting))
    case UpToDate(status) =>
      if IsReadyToUse(p.obj) then Some(p.(obj := Completed(p.obj.(status := status)), phase := Persisting)) else None
    case NeedsApply =>
      Some(p.(phase := Applying, appliedAt := Some(now)))
  }

  /** Create and Update mark the object running before their last reads, which may still fail. */
  function ApplyPass(p: Pass, succeeded: bool, marked: bool, status: string): Pass {
    var obj := p.obj.(status := status);
    var running := WithAnnotation(obj, RUNNING, "true");
    p.(obj := if succeeded then Completed(running) else if marked then running else obj, phase := Persisting)
  }

  predicate SetsMark(patch: MergePatch) {
    PROCESSED in patch && patch[PROCESSED].Some?
  }

  function AppliedAt(p: Pass): nat {
    if p.appliedAt.Some? then p.appliedAt.value else 0
  }

  function WithTrigger(w: World, after: Object): World
    requires w.versions != []
  {
    w.(clock := w.clock + 1, versions := Append(w.versions, after), lastTrigger := w.clock,
       lastClear := if after == Latest(w) || PROCESSED in after.annotations then w.lastClear else w.clock)
  }

  function Next(w: World, a: Action): Option<World>
    requires w.versions != []
    ensures Next(w, a).Some? ==> Next(w, a).value.versions != []
  {
    var latest := Latest(w);
    var t := w.(clock := w.clock + 1);
    match a
    case Edit(generation, annotations) =>
      if generation >= latest.generation && Lookup(annotations, PROCESSED) == Lookup(latest.annotations, PROCESSED)
      then Some(t.(versions := Append(w.versions, latest.(generation := generation, annotations := annotations))))
      else None
    case Trigger(stamp, version) =>
      if 0 < version <= |w.versions| then Some(WithTrigger(w, Triggered(latest, w.versions[version - 1], stamp)))
      else None
    case Begin(id, version) =>
      if id !in w.passes && 0 < version <= |w.versions| then
        var read := w.versions[version - 1];
        Some(t.(passes := w.passes[id := Pass(version, read, read, Observing, None)]))
      else None
    case Observe(id, outcome) =>
      if id in w.passes && w.passes[id].phase.Observing? && ObservePass(w.passes[id], outcome, w.clock).Some?
      then Some(t.(passes := w.passes[id := ObservePass(w.passes[id], outcome, w.clock).value],
                   lastApply := if outcome.NeedsApply? then w.clock else w.lastApply))
      else None
    case Apply(id, succeeded, marked, status) =>
      if id in w.passes && w.passes[id].phase.Applying?
      then Some(t.(passes := w.passes[id := ApplyPass(w.passes[id], succeeded, marked, status)])) else None
    case WriteStatus(id, fate) =>
      if id in w.passes && w.passes[id].phase.Persisting? then
        var p := w.passes[id];
        if p.obj == p.orig then Some(t.(passes := Without(w.passes, id)))
        else if fate.Applied() && p.version != |w.versions| then None
        else
          var versions := if fate.Applied() then Append(w.versions, latest.(status := p.obj.status)) else w.versions;
          var patch := Diff(p.orig.annotations, p.obj.annotations);
          Some(t.(versions := versions,
                  passes := if fate.Acknowledged? && patch != map[]
                            then w.passes[id := p.(version := |versions|, phase := Patching(patch))]
                            else Without(w.passes, id)))
      else None
    case WriteAnnotations(id, fate) =>
      if id in w.passes && w.passes[id].phase.Patching? && (fate.Rejected? || w.passes[id].version == |w.versions|) then
        var annotations := ApplyMergePatch(latest.annotations, w.passes[id].phase.patch);
        var marks := fate.Applied() && SetsMark(w.passes[id].phase.patch);
        var after := latest.(annotations := annotations);
        Some(t.(versions := if fate.Applied() then Append(w.versions, after) else w.versions,
                markApply := if marks then AppliedAt(w.passes[id]) else w.markApply,
                markGeneration := if marks then w.passes[id].orig.generation else w.markGeneration,
                passes := Without(w.passes, id)))
      else None
    case Abandon(id) =>
      Some(t.(passes := Without(w.passes, id)))
  }

  function Run(w: World, actions: seq<Action>): Option<World>
    requires w.versions != []
    ensures Run(w, actions).Some? ==> Run(w, actions).value.versions != []
    decreases |actions|
  {
    if actions == [] then Some(w)
    else
      match Next(w, actions[0])
      case None => None
      case Some(next) => Run(next, actions[1..])
  }

  /** The object as a user creates it, before any pass. */
  ghost predicate Initial(w: World) {
    && |w.versions| == 1 && PROCESSED !in w.versions[0].annotations
    && w.passes == map[] && w.clock == 1
    && w.lastApply == w.markApply == w.lastClear == w.lastTrigger == 0
  }

  ghost predicate Reachable(w: World) {
    exists start, actions :: Initial(start) && Run(start, actions) == Some(w)
  }

  lemma {:induction false} RunAppend(w: World, first: seq<Action>, second: seq<Action>)
    requires w.versions != []
    ensures Run(w, first + second) == match Run(w, first) { case None => None case Some(mid) => Run(mid, second) }
    decreases |first|
  {
    if first == [] {
      assert first + second == second;
    } else {
      assert (first + second)[1..] == first[1..] + second;
      match Next(w, first[0]) {
        case None =>
        case Some(next) => RunAppend(next, first[1..], second);
      }
    }
  }

  lemma RunOneMore(start: World, actions: seq<Action>, here: World, a: Action, next: World)
    requires start.versions != [] && here.versions != []
    requires Run(start, actions) == Some(here) && Next(here, a) == Some(next)
    ensures Run(start, actions + [a]) == Some(next)
  {
    RunAppend(start, actions, [a]);
    assert Run(here, [a]) == Some(next);
  }

  // ---------------------------------------------------------------- what a trigger changes

  lemma KeysDiffer()
    ensures PROCESSED != SECRET_UPDATED && PROCESSED != RUNNING && RUNNING != SECRET_UPDATED
  {
    assert PROCESSED[21] == 'g' && RUNNING[21] == 'i' && SECRET_UPDATED[21] == 's';
  }

  /** What a trigger does to the two annotations it is about; it does nothing to any other. */
  lemma TriggeredLookups(latest: Object, read: Object, stamp: string)
    ensures var after, before := Triggered(latest, read, stamp).annotations, latest.annotations;
            && Lookup(after, PROCESSED) == (if PROCESSED in read.annotations then None else Lookup(before, PROCESSED))
            && Lookup(after, SECRET_UPDATED) ==
               (if Lookup(read.annotations, SECRET_UPDATED) != Some(stamp) then Some(stamp)
                else Lookup(before, SECRET_UPDATED))
            && forall key | key != PROCESSED && key != SECRET_UPDATED :: Lookup(after, key) == Lookup(before, key)
  {
    KeysDiffer();
    forall key: string
      ensures Lookup(Triggered(latest, read, stamp).annotations, key) ==
              if Lookup(read.annotations, key) != Lookup(Invalidated(read, stamp).annotations, key)
              then Lookup(Invalidated(read, stamp).annotations, key) else Lookup(latest.annotations, key)
    {
      DiffTouchesOnlyChanges(read.annotations, Invalidated(read, stamp).annotations, latest.annotations, key);
    }
  }

  // ---------------------------------------------------------------- the invariant

  function Actor(a: Action): Option<nat> {
    match a
    case Edit(_, _) => None
    case Trigger(_, _) => None
    case Begin(id, _) => Some(id)
    case Observe(id, _) => Some(id)
    case Apply(id, _, _, _) => Some(id)
    case WriteStatus(id, _) => Some(id)
    case WriteAnnotations(id, _) => Some(id)
    case Abandon(id) => Some(id)
  }

  ghost predicate PassInv(w: World, p: Pass)
    requires w.versions != []
  {
    && 0 < p.version <= |w.versions|
    && (p.phase.Observing? ==> p.obj == p.orig)
    && (p.phase.Applying? ==> p.appliedAt.Some?)
    && (Lookup(p.obj.annotations, PROCESSED) != Lookup(p.orig.annotations, PROCESSED) ==> p.appliedAt.Some?)
    && (p.appliedAt.Some? ==> p.appliedAt.value <= w.lastApply)
    && (p.phase.Patching? ==> p.phase.patch == Diff(p.orig.annotations, p.obj.annotations))
    && (p.version == |w.versions| ==>
          && (PROCESSED in p.orig.annotations <==> PROCESSED in Latest(w).annotations)
          && (p.appliedAt.Some? ==> p.appliedAt.value > w.lastClear))
  }

  ghost predicate Inv(w: World) {
    && w.versions != []
    && w.markApply <= w.lastApply < w.clock && w.lastClear <= w.lastTrigger < w.clock
    && (PROCESSED in Latest(w).annotations ==> w.markApply > w.lastClear)
    && (forall id | id in w.passes :: PassInv(w, w.passes[id]))
  }

  /** A step of one pass leaves the invariant of the others alone. */
  lemma OthersKeepInv(w: World, a: Action, next: World, id: nat)
    requires Inv(w) && Next(w, a) == Some(next)
    requires id in next.passes && Actor(a) != Some(id)
    ensures PassInv(next, next.passes[id])
  {
    if a.Edit? || a.Trigger? {
      OutsideKeepsInv(w, a, next, id);
    } else if a.WriteStatus? || a.WriteAnnotations? {
      WriteKeepsOthers(w, a, next, id);
    } else {
      assert PassInv(w, w.passes[id]);
    }
  }

  lemma OutsideKeepsInv(w: World, a: Action, next: World, id: nat)
    requires Inv(w) && Next(w, a) == Some(next) && (a.Edit? || a.Trigger?)
    requires id in next.passes
    ensures PassInv(next, next.passes[id])
  {
    assert PassInv(w, w.passes[id]);
  }

  lemma WriteKeepsOthers(w: World, a: Action, next: World, id: nat)
    requires Inv(w) && Next(w, a) == Some(next) && (a.WriteStatus? || a.WriteAnnotations?)
    requires id in next.passes && a.id != id
    ensures PassInv(next, next.passes[id])
  {
    assert PassInv(w, w.passes[id]);
    if a.WriteStatus? {
      StatusWriteAppends(w, a.id, a.fate, next);
    } else {
      AnnotationWriteAppends(w, a.id, a.fate, next);
    }
    OthersFallBehind(w, next, w.passes[id]);
  }

  /** A write that changes something leaves those behind that hold the former version. */
  lemma OthersFallBehind(w: World, next: World, p: Pass)
    requires w.versions != [] && PassInv(w, p)
    requires next.versions == w.versions || |next.versions| == |w.versions| + 1
    requires next.lastApply == w.lastApply && next.lastClear == w.lastClear
    ensures next.versions != [] && PassInv(next, p)
  {
  }

  lemma StatusWriteAppends(w: World, id: nat, fate: Fate, next: World)
    requires w.versions != [] && Next(w, WriteStatus(id, fate)) == Some(next)
    ensures next.versions == w.versions || |next.versions| == |w.versions| + 1
    ensures next.lastApply == w.lastApply && next.lastClear == w.lastClear
    ensures forall other | other in next.passes && other != id ::
            other in w.passes && next.passes[other] == w.passes[other]
  {
  }

  lemma AnnotationWriteAppends(w: World, id: nat, fate: Fate, next: World)
    requires w.versions != [] && Next(w, WriteAnnotations(id, fate)) == Some(next)
    ensures next.versions == w.versions || |next.versions| == |w.versions| + 1
    ensures next.lastApply == w.lastApply && next.lastClear == w.lastClear
    ensures id !in next.passes
    ensures forall other | other in next.passes :: other in w.passes && next.passes[other] == w.passes[other]
  {
  }

  lemma BeginKeepsInv(w: World, id: nat, version: nat, next: World)
    requires Inv(w) && Next(w, Begin(id, version)) == Some(next)
    ensures PassInv(next, next.passes[id])
  {
  }

  lemma ObserveKeepsInv(w: World, id: nat, outcome: Outcome, next: World)
    requires Inv(w) && Next(w, Observe(id, outcome)) == Some(next)
    ensures PassInv(next, next.passes[id])
  {
    assert PassInv(w, w.passes[id]);
  }

  lemma ApplyKeepsInv(w: World, a: Action, next: World)
    requires Inv(w) && Next(w, a) == Some(next) && a.Apply?
    ensures PassInv(next, next.passes[a.id])
  {
    assert PassInv(w, w.passes[a.id]);
  }

  lemma StatusWriteKeepsInv(w: World, id: nat, fate: Fate, next: World)
    requires Inv(w) && Next(w, WriteStatus(id, fate)) == Some(next) && id in next.passes
    ensures PassInv(next, next.passes[id])
  {
    assert PassInv(w, w.passes[id]);
  }

  lemma ActorKeepsInv(w: World, a: Action, next: World, id: nat)
    requires Inv(w) && Next(w, a) == Some(next)
    requires id in next.passes && Actor(a) == Some(id)
    ensures PassInv(next, next.passes[id])
  {
    if a.Begin? {
      BeginKeepsInv(w, id, a.version, next);
    } else if a.Observe? {
      ObserveKeepsInv(w, id, a.outcome, next);
    } else if a.Apply? {
      ApplyKeepsInv(w, a, next);
    } else if a.WriteStatus? {
      StatusWriteKeepsInv(w, id, a.fate, next);
    } else if a.WriteAnnotations? {
      AnnotationWriteAppends(w, id, a.fate, next);
    }
  }

  lemma WriteAnnotationsKeepsReadiness(w: World, id: nat, fate: Fate, next: World)
    requires Inv(w) && Next(w, WriteAnnotations(id, fate)) == Some(next)
    requires PROCESSED in Latest(next).annotations
    ensures next.markApply > next.lastClear
  {
    assert PassInv(w, w.passes[id]);
    if fate.Applied() {
      MergedLookup(Latest(w).annotations, w.passes[id].phase.patch, PROCESSED);
    }
  }

  lemma NextKeepsHistory(w: World, a: Action, next: World)
    requires Inv(w) && Next(w, a) == Some(next)
    ensures next.markApply <= next.lastApply < next.clock && next.lastClear <= next.lastTrigger < next.clock
    ensures PROCESSED in Latest(next).annotations ==> next.markApply > next.lastClear
  {
    if a.Trigger? {
      TriggeredLookups(Latest(w), w.versions[a.version - 1], a.stamp);
    }
    if a.WriteAnnotations? {
      assert PassInv(w, w.passes[a.id]);
      if PROCESSED in Latest(next).annotations {
        WriteAnnotationsKeepsReadiness(w, a.id, a.fate, next);
      }
    }
  }

  lemma NextKeepsInv(w: World, a: Action, next: World)
    requires Inv(w) && Next(w, a) == Some(next)
    ensures Inv(next)
  {
    forall id | id in next.passes
      ensures PassInv(next, next.passes[id])
    {
      if Actor(a) == Some(id) {
        ActorKeepsInv(w, a, next, id);
      } else {
        OthersKeepInv(w, a, next, id);
      }
    }
    NextKeepsHistory(w, a, next);
  }

  lemma {:induction false} RunKeepsInv(w: World, actions: seq<Action>, end: World)
    requires Inv(w) && Run(w, actions) == Some(end)
    ensures Inv(end)
    decreases |actions|
  {
    if actions != [] {
      var next := Next(w, actions[0]).value;
      NextKeepsInv(w, actions[0], next);
      RunKeepsInv(next, actions[1..], end);
    }
  }

  lemma ReachableInv(w: World)
    requires Reachable(w)
    ensures Inv(w)
  {
    var start, actions :| Initial(start) && Run(start, actions) == Some(w);
    RunKeepsInv(start, actions, w);
  }

  // ---------------------------------------------------------------- generations and marks

  /** A pass works on the generation that it read, and marks no other one. */
  ghost predicate PassMarks(w: World, p: Pass)
    requires w.versions != []
  {
    && p.obj.generation == p.orig.generation <= Latest(w).generation
    && (Lookup(p.obj.annotations, PROCESSED) == Lookup(p.orig.annotations, PROCESSED) ||
        Lookup(p.obj.annotations, PROCESSED) == Some(Decimal(p.orig.generation)))
    && (p.phase.Patching? ==> p.phase.patch == Diff(p.orig.annotations, p.obj.annotations))
  }

  ghost predicate VersionsGrow(versions: seq<Object>) {
    versions != [] && forall i | 0 <= i < |versions| :: versions[i].generation <= versions[|versions| - 1].generation
  }

  /** The mark is of the generation of the pass that wrote it, which is no later one than the object has. */
  ghost predicate Marks(w: World) {
    && VersionsGrow(w.versions)
    && (PROCESSED in Latest(w).annotations ==>
          Latest(w).annotations[PROCESSED] == Decimal(w.markGeneration) && w.markGeneration <= Latest(w).generation)
    && (forall id | id in w.passes :: PassMarks(w, w.passes[id]))
  }

  lemma NextKeepsVersionsGrowing(w: World, a: Action, next: World)
    requires VersionsGrow(w.versions) && Next(w, a) == Some(next)
    ensures VersionsGrow(next.versions) && Latest(next).generation >= Latest(w).generation
  {
  }

  lemma PassKeepsMarks(w: World, a: Action, next: World, id: nat)
    requires Marks(w) && Next(w, a) == Some(next) && id in next.passes
    ensures PassMarks(next, next.passes[id])
  {
    NextKeepsVersionsGrowing(w, a, next);
    if id in w.passes {
      assert PassMarks(w, w.passes[id]);
      if Actor(a) == Some(id) {
        OwnStepKeepsMarks(w, a, next, id);
      } else {
        OthersAreLeftAlone(w, a, next, id);
      }
    } else {
      assert a.Begin? && a.id == id;
      assert next.passes[id].orig == w.versions[a.version - 1];
    }
  }

  lemma OthersAreLeftAlone(w: World, a: Action, next: World, id: nat)
    requires w.versions != [] && Next(w, a) == Some(next) && id in w.passes && id in next.passes && Actor(a) != Some(id)
    ensures next.passes[id] == w.passes[id]
  {
  }

  lemma OwnStepKeepsMarks(w: World, a: Action, next: World, id: nat)
    requires w.versions != [] && Next(w, a) == Some(next) && id in w.passes && id in next.passes
    requires Actor(a) == Some(id) && PassMarks(w, w.passes[id]) && Latest(next).generation >= Latest(w).generation
    ensures PassMarks(next, next.passes[id])
  {
    KeysDiffer();
  }

  /** A patch that touches the mark sets it, to the generation that the pass had read. */
  lemma WrittenMark(w: World, id: nat, fate: Fate, next: World)
    requires Marks(w) && Next(w, WriteAnnotations(id, fate)) == Some(next) && PROCESSED in Latest(next).annotations
    ensures Latest(next).annotations[PROCESSED] == Decimal(next.markGeneration)
    ensures next.markGeneration <= Latest(next).generation
  {
    assert PassMarks(w, w.passes[id]);
    if fate.Applied() {
      MergedLookup(Latest(w).annotations, w.passes[id].phase.patch, PROCESSED);
    }
  }

  lemma NextKeepsMark(w: World, a: Action, next: World)
    requires Marks(w) && Next(w, a) == Some(next) && PROCESSED in Latest(next).annotations
    ensures Latest(next).annotations[PROCESSED] == Decimal(next.markGeneration)
    ensures next.markGeneration <= Latest(next).generation
  {
    if a.WriteAnnotations? {
      WrittenMark(w, a.id, a.fate, next);
    } else {
      OthersKeepMark(w, a, next);
    }
  }

  lemma OthersKeepMark(w: World, a: Action, next: World)
    requires w.versions != [] && Next(w, a) == Some(next) && !a.WriteAnnotations?
    ensures Lookup(Latest(next).annotations, PROCESSED) == Lookup(Latest(w).annotations, PROCESSED) ||
            PROCESSED !in Latest(next).annotations
    ensures next.markGeneration == w.markGeneration && Latest(next).generation >= Latest(w).generation
  {
    if a.Trigger? {
      TriggeredLookups(Latest(w), w.versions[a.version - 1], a.stamp);
    }
  }

  lemma NextKeepsMarks(w: World, a: Action, next: World)
    requires Marks(w) && Next(w, a) == Some(next)
    ensures Marks(next)
  {
    NextKeepsVersionsGrowing(w, a, next);
    if PROCESSED in Latest(next).annotations {
      NextKeepsMark(w, a, next);
    }
    forall id | id in next.passes
      ensures PassMarks(next, next.passes[id])
    {
      PassKeepsMarks(w, a, next, id);
    }
  }

  lemma {:induction false} RunKeepsMarks(w: World, actions: seq<Action>, end: World)
    requires Marks(w) && Run(w, actions) == Some(end)
    ensures Marks(end)
    decreases |actions|
  {
    if actions != [] {
      NextKeepsMarks(w, actions[0], Next(w, actions[0]).value);
      RunKeepsMarks(Next(w, actions[0]).value, actions[1..], end);
    }
  }

  lemma ReachableMarks(w: World)
    requires Reachable(w)
    ensures Marks(w)
  {
    var start, actions :| Initial(start) && Run(start, actions) == Some(w);
    RunKeepsMarks(start, actions, w);
  }

  // ---------------------------------------------------------------- what the protocol promises

  /** No lost invalidation: a ready object owes its mark to a pass that started to apply after the last clearing. And no
      lost edit: what that pass applied is the current generation. */
  lemma ReadyWasAppliedAfterClearing(w: World)
    requires Reachable(w) && w.versions != [] && IsReadyToUse(Latest(w))
    ensures w.lastApply >= w.markApply > w.lastClear
    ensures w.markGeneration == Latest(w).generation
  {
    ReachableInv(w);
    ReachableMarks(w);
    DecimalIsInjective(w.markGeneration, Latest(w).generation);
  }

  /** An edit that makes a new generation takes readiness away at once. */
  lemma EditTakesReadinessAway(w: World, generation: nat, annotations: Annotations, next: World)
    requires Reachable(w) && w.versions != [] && Next(w, Edit(generation, annotations)) == Some(next)
    requires generation > Latest(w).generation
    ensures Latest(next).generation == generation && !IsReadyToUse(Latest(next))
    ensures Lookup(Latest(next).annotations, PROCESSED) == Lookup(Latest(w).annotations, PROCESSED)
  {
    ReachableMarks(w);
    DecimalIsInjective(w.markGeneration, generation);
  }

  /** The pass can no longer write: it holds a version of the object that is not the current one. */
  predicate Fenced(w: World, id: nat) {
    id in w.passes && w.passes[id].version < |w.versions|
  }

  /** Along this run, for as long as the pass is under way, none of its steps changes the stored object. */
  ghost predicate NeverWrites(w: World, id: nat, actions: seq<Action>)
    requires w.versions != []
    decreases |actions|
  {
    actions == [] ||
    match Next(w, actions[0])
    case None => true
    case Some(next) =>
      && (Actor(actions[0]) == Some(id) ==> next.versions == w.versions)
      && (id in next.passes ==> NeverWrites(next, id, actions[1..]))
  }

  /** No pass that holds the object from before a clearing can undo it, whatever happens in between. */
  lemma {:induction false} FencedPassNeverWrites(w: World, id: nat, actions: seq<Action>)
    requires w.versions != [] && Fenced(w, id)
    ensures NeverWrites(w, id, actions)
    decreases |actions|
  {
    if actions != [] && Next(w, actions[0]).Some? {
      var next := Next(w, actions[0]).value;
      if id in next.passes {
        FencedPassNeverWrites(next, id, actions[1..]);
      }
    }
  }

  /** Whether a trigger changes the object can be read off the copy it is made from, the object, and the second. */
  predicate TriggerChanges(w: World, stamp: string, version: nat)
    requires 0 < version <= |w.versions|
  {
    var read, latest := w.versions[version - 1].annotations, Latest(w).annotations;
    || (PROCESSED in read && PROCESSED in latest)
    || (Lookup(read, SECRET_UPDATED) != Some(stamp) && Lookup(latest, SECRET_UPDATED) != Some(stamp))
  }

  /** It changes it into an object without the mark. */
  predicate TriggerShows(w: World, stamp: string, version: nat)
    requires 0 < version <= |w.versions|
  {
    && TriggerChanges(w, stamp, version)
    && (PROCESSED in Latest(w).annotations ==> PROCESSED in w.versions[version - 1].annotations)
  }

  lemma ChangesExactly(w: World, stamp: string, version: nat)
    requires 0 < version <= |w.versions|
    ensures Triggered(Latest(w), w.versions[version - 1], stamp) != Latest(w) <==> TriggerChanges(w, stamp, version)
  {
    var latest, read := Latest(w), w.versions[version - 1];
    var after := Triggered(latest, read, stamp);
    TriggeredLookups(latest, read, stamp);
    if !TriggerChanges(w, stamp, version) {
      forall key: string
        ensures Lookup(after.annotations, key) == Lookup(latest.annotations, key)
      {
      }
      SameLookups(after.annotations, latest.annotations);
    }
  }

  lemma TriggerStores(w: World, stamp: string, version: nat, next: World)
    requires 0 < version <= |w.versions| && Next(w, Trigger(stamp, version)) == Some(next)
    ensures Latest(next) == Triggered(Latest(w), w.versions[version - 1], stamp)
    ensures next.versions == if TriggerChanges(w, stamp, version) then w.versions + [Latest(next)] else w.versions
    ensures next.lastClear == if TriggerShows(w, stamp, version) then w.clock else w.lastClear
    ensures next == w.(versions := next.versions, clock := w.clock + 1, lastClear := next.lastClear,
                       lastTrigger := w.clock)
  {
    ChangesExactly(w, stamp, version);
    TriggeredLookups(Latest(w), w.versions[version - 1], stamp);
  }

  /** Nobody who holds a version is up to date any more exactly if there is a new one, or nobody was. */
  lemma FencedByGrowth(w: World, next: World)
    requires forall id | id in w.passes :: 0 < w.passes[id].version <= |w.versions|
    requires next.passes == w.passes && |w.versions| <= |next.versions|
    ensures (forall id | id in w.passes :: Fenced(next, id)) <==>
            (|next.versions| > |w.versions| || forall id | id in w.passes :: Fenced(w, id))
  {
    if |next.versions| == |w.versions| {
      forall id
        ensures Fenced(next, id) <==> Fenced(w, id)
      {
      }
    }
  }

  /** A trigger fences every pass under way if and only if it changes the object, or nobody holds the current one. The
      mark survives it exactly if the trigger was made from a copy without the mark. */
  lemma TriggerFences(w: World, stamp: string, version: nat, next: World)
    requires Inv(w) && Next(w, Trigger(stamp, version)) == Some(next)
    ensures TriggerShows(w, stamp, version) <==> next.lastClear == w.clock
    ensures (forall id | id in w.passes :: Fenced(next, id)) <==>
            (TriggerChanges(w, stamp, version) || forall id | id in w.passes :: Fenced(w, id))
    ensures PROCESSED in Latest(next).annotations <==>
            PROCESSED in Latest(w).annotations && PROCESSED !in w.versions[version - 1].annotations
  {
    TriggerStores(w, stamp, version, next);
    TriggeredLookups(Latest(w), w.versions[version - 1], stamp);
    VersionsInRange(w);
    FencedByGrowth(w, next);
  }

  lemma VersionsInRange(w: World)
    requires Inv(w)
    ensures forall id | id in w.passes :: 0 < w.passes[id].version <= |w.versions|
  {
    forall id | id in w.passes
      ensures 0 < w.passes[id].version <= |w.versions|
    {
      assert PassInv(w, w.passes[id]);
    }
  }

  /** Triggers that all show in the object: then readiness is honest about the last of them. */
  lemma {:induction false} ShownTriggersAreHonoured(w: World, actions: seq<Action>, end: World)
    requires Inv(w) && w.lastTrigger == w.lastClear
    requires Run(w, actions) == Some(end) && AllShow(w, actions)
    ensures end.lastTrigger == end.lastClear
    ensures IsReadyToUse(Latest(end)) ==> end.markApply > end.lastTrigger
    decreases |actions|
  {
    if actions != [] {
      var next := Next(w, actions[0]).value;
      NextKeepsInv(w, actions[0], next);
      if actions[0].Trigger? {
        TriggerFences(w, actions[0].stamp, actions[0].version, next);
      }
      ShownTriggersAreHonoured(next, actions[1..], end);
    }
  }

  ghost predicate AllShow(w: World, actions: seq<Action>)
    requires w.versions != []
    decreases |actions|
  {
    actions == [] ||
    match Next(w, actions[0])
    case None => true
    case Some(next) =>
      (actions[0].Trigger? ==> TriggerShows(w, actions[0].stamp, actions[0].version)) && AllShow(next, actions[1..])
  }

  /** The timestamp counts seconds. A change of the Secret that does not change the object, because it is the second
      within one second, can fall between the start of an Update and its writes, and is then lost: from any state in
      that condition there is a run that ends with the object ready. */
  lemma HiddenTriggerIsLost(w: World, id: nat, stamp: string, version: nat) returns (actions: seq<Action>, end: World)
    requires w.versions != [] && w.markApply < w.clock && id !in w.passes && PROCESSED !in Latest(w).annotations
    requires 0 < version <= |w.versions| && !TriggerChanges(w, stamp, version)
    ensures Run(w, actions) == Some(end) && |actions| == 6 && actions[2] == Trigger(stamp, version)
    ensures IsReadyToUse(Latest(end)) && end.markApply < end.lastTrigger
  {
    var after, rest;
    actions, after := TriggerDuringApply(w, id, stamp, version);
    rest, end := ApplyAndFinish(after, id);
    RunAppend(w, actions, rest);
    actions := actions + rest;
  }

  lemma TriggerDuringApply(w: World, id: nat, stamp: string, version: nat) returns (actions: seq<Action>, end: World)
    requires w.versions != [] && id !in w.passes
    requires 0 < version <= |w.versions| && !TriggerChanges(w, stamp, version)
    ensures Run(w, actions) == Some(end) && |actions| == 3 && actions[2] == Trigger(stamp, version)
    ensures id in end.passes && end.versions == w.versions
    ensures end.passes[id] == Pass(|w.versions|, Latest(w), Latest(w), Applying, Some(w.clock + 1))
    ensures end.lastTrigger == w.clock + 2 && end.markApply == w.markApply
  {
    var applying;
    actions, applying := StartApply(w, id);
    end := HiddenTrigger(applying, stamp, version);
    RunOneMore(w, actions, applying, Trigger(stamp, version), end);
    actions := actions + [Trigger(stamp, version)];
  }

  /** An apply that succeeds marks the object ready, if nothing was written since the pass began. */
  lemma ApplyAndFinish(w: World, id: nat) returns (actions: seq<Action>, end: World)
    requires w.versions != [] && id in w.passes && PROCESSED !in Latest(w).annotations
    requires w.passes[id] == Pass(|w.versions|, Latest(w), Latest(w), Applying, w.passes[id].appliedAt)
    ensures Run(w, actions) == Some(end) && |actions| == 3
    ensures IsReadyToUse(Latest(end)) && end.lastTrigger == w.lastTrigger
    ensures end.markApply == w.markApply || end.markApply == AppliedAt(w.passes[id])
  {
    KeysDiffer();
    var apply := Apply(id, true, true, Latest(w).status);
    var applied := Next(w, apply).value;
    end := FinishPass(applied, id);
    RunOneMore(w, [], w, apply, applied);
    RunAppend(w, [apply], [WriteStatus(id, Acknowledged), WriteAnnotations(id, Acknowledged)]);
    actions := [apply] + [WriteStatus(id, Acknowledged), WriteAnnotations(id, Acknowledged)];
  }

  lemma HiddenTrigger(w: World, stamp: string, version: nat) returns (after: World)
    requires 0 < version <= |w.versions| && !TriggerChanges(w, stamp, version)
    ensures Next(w, Trigger(stamp, version)) == Some(after)
    ensures after == w.(clock := w.clock + 1, lastTrigger := w.clock)
  {
    after := WithTrigger(w, Triggered(Latest(w), w.versions[version - 1], stamp));
    TriggerStores(w, stamp, version, after);
  }

  /** A new pass on the current object begins to apply. */
  lemma StartApply(w: World, id: nat) returns (actions: seq<Action>, end: World)
    requires w.versions != [] && id !in w.passes
    ensures actions == [Begin(id, |w.versions|), Observe(id, NeedsApply)] && Run(w, actions) == Some(end)
    ensures id in end.passes
    ensures end.passes[id] == Pass(|w.versions|, Latest(w), Latest(w), Applying, Some(w.clock + 1))
    ensures end.versions == w.versions && end.clock == w.clock + 2 && end.markApply == w.markApply
  {
    var begun := Next(w, Begin(id, |w.versions|)).value;
    end := Next(begun, Observe(id, NeedsApply)).value;
    RunOneMore(w, [], w, Begin(id, |w.versions|), begun);
    RunOneMore(w, [Begin(id, |w.versions|)], begun, Observe(id, NeedsApply), end);
    actions := [Begin(id, |w.versions|)] + [Observe(id, NeedsApply)];
  }

  lemma FirstTrigger(start: World, stamp: string) returns (changed: World)
    requires Initial(start)
    ensures Next(start, Trigger(stamp, 1)) == Some(changed) && Inv(changed) && changed.passes == map[]
    ensures PROCESSED !in Latest(changed).annotations && !TriggerChanges(changed, stamp, |changed.versions|)
  {
    changed := Next(start, Trigger(stamp, 1)).value;
    NextKeepsInv(start, Trigger(stamp, 1), changed);
    TriggerStores(start, stamp, 1, changed);
    TriggeredLookups(Latest(start), start.versions[0], stamp);
  }

  /** Such a state is reached by a first change of the Secret: of two changes within one second the second is lost,
      from every start and in whatever second, although both triggers are made from the current object. */
  lemma SecondTriggerOfASecondIsLost(start: World, stamp: string)
    returns (changed: World, actions: seq<Action>, end: World)
    requires Initial(start)
    ensures Next(start, Trigger(stamp, 1)) == Some(changed)
    ensures Run(start, actions) == Some(end) && |actions| == 7
    ensures actions[0] == Trigger(stamp, 1) && actions[3] == Trigger(stamp, |changed.versions|)
    ensures IsReadyToUse(Latest(end)) && end.markApply < end.lastTrigger
  {
    changed := FirstTrigger(start, stamp);
    var rest;
    rest, end := HiddenTriggerIsLost(changed, 0, stamp, |changed.versions|);
    RunOneMore(start, [], start, Trigger(stamp, 1), changed);
    RunAppend(start, [Trigger(stamp, 1)], rest);
    actions := [Trigger(stamp, 1)] + rest;
  }

  lemma NextKeepsVersions(w: World, a: Action, next: World)
    requires w.versions != [] && Next(w, a) == Some(next)
    ensures w.versions <= next.versions
  {
  }

  lemma {:induction false} RunKeepsVersions(w: World, actions: seq<Action>, end: World)
    requires w.versions != [] && Run(w, actions) == Some(end)
    ensures w.versions <= end.versions
    decreases |actions|
  {
    if actions != [] {
      NextKeepsVersions(w, actions[0], Next(w, actions[0]).value);
      RunKeepsVersions(Next(w, actions[0]).value, actions[1..], end);
    }
  }

  /** A trigger made from an old copy can be lost altogether: in every reachable state in which the object is ready, and
      for every change of the Secret, there is a copy from which the trigger leaves the object ready. */
  lemma OldCopyLosesTheTrigger(w: World, stamp: string) returns (version: nat, next: World)
    requires Reachable(w) && w.versions != [] && IsReadyToUse(Latest(w))
    ensures Next(w, Trigger(stamp, version)) == Some(next)
    ensures IsReadyToUse(Latest(next)) && next.markApply < next.lastTrigger
  {
    ReachableInv(w);
    var start, actions :| Initial(start) && Run(start, actions) == Some(w);
    RunKeepsVersions(start, actions, w);
    version := 1;
    assert w.versions[0] == start.versions[0];
    next := Next(w, Trigger(stamp, version)).value;
    KeysDiffer();
    TriggerStores(w, stamp, version, next);
    TriggeredLookups(Latest(w), w.versions[0], stamp);
    assert Lookup(Latest(next).annotations, RUNNING) == Lookup(Latest(w).annotations, RUNNING);
  }

  /** Such a state is reached from every start, by one pass without faults. */
  lemma ReadyIsReached(start: World) returns (actions: seq<Action>, end: World)
    requires Initial(start)
    ensures Run(start, actions) == Some(end) && IsReadyToUse(Latest(end)) && Reachable(end)
  {
    var applying;
    var rest;
    actions, applying := StartApply(start, 0);
    rest, end := ApplyAndFinish(applying, 0);
    RunAppend(start, actions, rest);
    actions := actions + rest;
  }

  /** A pass that holds the current object and meets no fault stores exactly its own copy. */
  lemma FinishPass(w: World, id: nat) returns (end: World)
    requires w.versions != [] && id in w.passes && w.passes[id].phase.Persisting?
    requires w.passes[id].version == |w.versions| && w.passes[id].orig == Latest(w)
    requires w.passes[id].obj.generation == Latest(w).generation
    requires w.passes[id].obj.annotations != Latest(w).annotations
    ensures Run(w, [WriteStatus(id, Acknowledged), WriteAnnotations(id, Acknowledged)]) == Some(end)
    ensures Latest(end) == w.passes[id].obj
    ensures end.lastApply == w.lastApply && end.lastTrigger == w.lastTrigger && end.lastClear == w.lastClear
    ensures end.markApply == w.markApply || end.markApply == AppliedAt(w.passes[id])
  {
    var p := w.passes[id];
    DiffIsLeast(p.orig.annotations, p.obj.annotations, map[]);
    DiffReproducesCurrent(p.orig.annotations, p.obj.annotations);
    var mid := Next(w, WriteStatus(id, Acknowledged)).value;
    assert Latest(mid) == Latest(w).(status := p.obj.status);
    end := Next(mid, WriteAnnotations(id, Acknowledged)).value;
    RunOneMore(w, [], w, WriteStatus(id, Acknowledged), mid);
    RunOneMore(w, [WriteStatus(id, Acknowledged)], mid, WriteAnnotations(id, Acknowledged), end);
    assert [WriteStatus(id, Acknowledged)] + [WriteAnnotations(id, Acknowledged)] ==
           [WriteStatus(id, Acknowledged), WriteAnnotations(id, Acknowledged)];
  }
}
