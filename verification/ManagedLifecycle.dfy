/** The life of one custom resource under the managed reconciler: finalizer, remote resource, deletion.

    A pass is atomic here and nobody edits finalizers by hand. The remote resource is made only by
    passes. AivenController.Delete keeps its contract: it returns nil only when the resource is gone. */
module ManagedLifecycle {
  import opened Base

  const ORPHAN := "Orphan"

  datatype Resource = Resource(
    finalizer: bool,
    deleting: bool,
    policy: Option<string>,   // the deletion policy annotation
    running: bool,            // the instance-is-running annotation is present
    deleteError: bool)        // the Error condition with reason Delete

  /** What Delete of the kind's controller returns. */
  datatype DeleteResult =
    | Deleted
    | Skipped          // the remote resource is intentionally left
    | InProgress
    | InvalidToken
    | Dependencies
    | NotFound
    | ServerError
    | OtherError

  datatype World = World(
    cr: Option<Resource>,
    remote: bool,      // the remote resource exists
    abandoned: bool)   // it was left behind on purpose, and no resource has taken it over since

  datatype Gate =
    | Passed       // the auth Secret is there and protected, and all references are ready
    | RefsPending  // a referenced object is missing or not ready
    | Failing      // the auth Secret cannot be read or protected, or references cannot be resolved

  /** What a pass on a resource that is not being deleted meets. */
  datatype PassEvents = PassEvents(
    gate: Gate,
    addFinalizer: Fate,
    client: bool,       // an API client can be made
    remoteAfter: bool,  // Create may make the remote resource, also when it reports a failure
    runningAfter: bool)

  datatype DeleteEvents = DeleteEvents(
    client: bool,
    result: DeleteResult,
    remoteAfter: bool,
    removeFinalizer: Fate)

  datatype Action =
    | CreateObject(policy: Option<string>)
    | EditPolicy(policy: Option<string>)
    | DeleteObject
    | Pass(events: PassEvents)
    | DeletePass(deletion: DeleteEvents)

  /** The contract of AivenController.Delete, and what it can do to the remote resource. */
  predicate KeepsContract(remote: bool, d: DeleteEvents) {
    && (d.remoteAfter ==> remote)
    && (d.result.Deleted? ==> !d.remoteAfter)
    && (d.result.Skipped? ==> d.remoteAfter == remote)
  }

  predicate KnownPolicy(cr: Resource) {
    cr.policy.None? || cr.policy == Some(ORPHAN)
  }

  /** Why a resource that still exists at Aiven may be let go. */
  predicate Deliberate(cr: Resource, result: DeleteResult) {
    || cr.policy == Some(ORPHAN)
    || (cr.policy.None? && (result.Skipped? || (result.InvalidToken? && !cr.running)))
  }

  predicate Releases(cr: Resource, d: DeleteEvents) {
    KnownPolicy(cr) &&
    (cr.policy.Some? ||
     (d.client && (d.result.Deleted? || d.result.Skipped? || (d.result.InvalidToken? && !cr.running))))
  }

  function AfterPass(w: World, e: PassEvents): World
    requires w.cr.Some? && !w.cr.value.deleting
  {
    var cr := w.cr.value;
    if !e.gate.Passed? then w
    else if !cr.finalizer && !e.addFinalizer.Applied() then w
    else
      var kept := cr.(finalizer := true);
      if (cr.finalizer || e.addFinalizer.Acknowledged?) && e.client
      then World(Some(kept.(running := e.runningAfter)), w.remote || e.remoteAfter, false)
      else w.(cr := Some(kept))
  }

  function AfterDeletePass(w: World, d: DeleteEvents): World
    requires w.cr.Some? && w.cr.value.deleting
  {
    var cr := w.cr.value;
    if !cr.finalizer then w
    else
      var called := cr.policy.None? && d.client;
      var remote := if called then d.remoteAfter else w.remote;
      if Releases(cr, d) then
        if d.removeFinalizer.Applied() then World(None, remote, w.abandoned || Deliberate(cr, d.result))
        else w.(remote := remote)
      else if called then World(Some(cr.(deleteError := cr.deleteError || !d.result.InProgress?)), remote, w.abandoned)
      else if cr.policy.None? then w
      else w.(cr := Some(cr.(deleteError := true)))
  }

  function Next(w: World, a: Action): Option<World> {
    match a
    case CreateObject(policy) =>
      if w.cr.None? then Some(w.(cr := Some(Resource(false, false, policy, false, false)))) else None
    case EditPolicy(policy) =>
      if w.cr.Some? then Some(w.(cr := Some(w.cr.value.(policy := policy)))) else None
    case DeleteObject =>
      if w.cr.None? then None
      else if !w.cr.value.finalizer then Some(w.(cr := None))
      else Some(w.(cr := Some(w.cr.value.(deleting := true))))
    case Pass(e) =>
      if w.cr.Some? && !w.cr.value.deleting then Some(AfterPass(w, e)) else None
    case DeletePass(d) =>
      if w.cr.Some? && w.cr.value.deleting && KeepsContract(w.remote, d) then Some(AfterDeletePass(w, d)) else None
  }

  function Run(w: World, actions: seq<Action>): Option<World>
    decreases |actions|
  {
    if actions == [] then Some(w)
    else
      match Next(w, actions[0])
      case None => None
      case Some(next) => Run(next, actions[1..])
  }

  const NOTHING := World(None, false, false)

  ghost predicate Reachable(w: World) {
    exists actions :: Run(NOTHING, actions) == Some(w)
  }

  /** The remote resource is always held by a finalizer, unless it was left behind on purpose. */
  ghost predicate Inv(w: World) {
    && (w.remote ==> w.abandoned || (w.cr.Some? && w.cr.value.finalizer))
    && (w.cr.Some? && w.cr.value.deleting ==> w.cr.value.finalizer)
  }

  lemma {:induction false} RunKeepsInv(w: World, actions: seq<Action>, end: World)
    requires Inv(w) && Run(w, actions) == Some(end)
    ensures Inv(end)
    decreases |actions|
  {
    if actions != [] {
      RunKeepsInv(Next(w, actions[0]).value, actions[1..], end);
    }
  }

  /** No leak: in every run the remote resource is under a finalizer, or was deliberately let go. */
  lemma NoLeak(w: World)
    requires Reachable(w) && w.remote && !w.abandoned
    ensures w.cr.Some? && w.cr.value.finalizer
  {
    var actions :| Run(NOTHING, actions) == Some(w);
    RunKeepsInv(NOTHING, actions, w);
  }

  /** A custom resource disappears only when its remote resource is absent, or for one of the stated reasons. */
  lemma DisappearsForAReason(w: World, a: Action, next: World)
    requires Reachable(w) && Next(w, a) == Some(next)
    requires w.cr.Some? && next.cr.None? && !w.abandoned
    ensures !next.remote || (a.DeletePass? && w.cr.value.finalizer && Deliberate(w.cr.value, a.deletion.result))
  {
    var actions :| Run(NOTHING, actions) == Some(w);
    RunKeepsInv(NOTHING, actions, w);
  }

  /** With an unknown policy no pass deletes or releases, until somebody changes the policy. */
  lemma {:induction false} UnknownPolicyHolds(w: World, actions: seq<Action>, end: World)
    requires w.cr.Some? && w.cr.value.deleting && w.cr.value.finalizer && !KnownPolicy(w.cr.value)
    requires Run(w, actions) == Some(end)
    requires forall i | 0 <= i < |actions| :: !actions[i].EditPolicy?
    ensures end.cr.Some? && end.cr.value.finalizer && end.cr.value.policy == w.cr.value.policy && end.remote == w.remote
    decreases |actions|
  {
    if actions != [] {
      UnknownPolicyHolds(Next(w, actions[0]).value, actions[1..], end);
    }
  }

  /** Nor is a resource held for ever: from every reachable state in which no policy is set, deleting the object and one
      deletion pass that works take the object away, and the remote resource with it unless it was left
      behind before. */
  lemma DeletionCompletes(w: World, d: DeleteEvents) returns (actions: seq<Action>, end: World)
    requires Reachable(w) && w.cr.Some? && w.cr.value.policy.None?
    requires KeepsContract(w.remote, d) && d.client && d.result.Deleted? && d.removeFinalizer.Acknowledged?
    ensures |actions| <= 2 && Run(w, actions) == Some(end)
    ensures end.cr.None? && (end.remote ==> w.abandoned)
  {
    var before :| Run(NOTHING, before) == Some(w);
    RunKeepsInv(NOTHING, before, w);
    if w.cr.value.deleting {
      end := Next(w, DeletePass(d)).value;
      actions := [DeletePass(d)];
      assert Run(end, []) == Some(end) && actions[1..] == [];
    } else {
      var marked := Next(w, DeleteObject).value;
      if marked.cr.None? {
        end, actions := marked, [DeleteObject];
        assert Run(end, []) == Some(end) && actions[1..] == [];
      } else {
        end := Next(marked, DeletePass(d)).value;
        actions := [DeleteObject, DeletePass(d)];
        assert actions[1..] == [DeletePass(d)] && actions[1..][1..] == [];
        assert Run(marked, actions[1..]) == Run(end, []);
      }
    }
  }

  /** A whole life: an object is created with any policy, a pass makes the remote resource, the policy is removed, the
      object is deleted, and a deletion pass takes both away. */
  lemma LifeIsPossible(policy: Option<string>) returns (alive: World, end: World)
    ensures var works := PassEvents(Passed, Acknowledged, true, true, true);
            Run(NOTHING, [CreateObject(policy), Pass(works)]) == Some(alive)
    ensures alive.remote && alive.cr == Some(Resource(true, false, policy, true, false))
    ensures var gone := DeleteEvents(true, Deleted, false, Acknowledged);
            Run(alive, [EditPolicy(None), DeleteObject, DeletePass(gone)]) == Some(end)
    ensures end.cr.None? && !end.remote
  {
    var works := PassEvents(Passed, Acknowledged, true, true, true);
    var made := Next(NOTHING, CreateObject(policy)).value;
    alive := Next(made, Pass(works)).value;
    assert Run(alive, []) == Some(alive) && [CreateObject(policy), Pass(works)][1..] == [Pass(works)];
    assert Run(made, [Pass(works)]) == Run(alive, [Pass(works)][1..]);
    var gone := DeleteEvents(true, Deleted, false, Acknowledged);
    var edited := Next(alive, EditPolicy(None)).value;
    var marked := Next(edited, DeleteObject).value;
    end := Next(marked, DeletePass(gone)).value;
    assert [EditPolicy(None), DeleteObject, DeletePass(gone)][1..] == [DeleteObject, DeletePass(gone)];
    assert [DeleteObject, DeletePass(gone)][1..] == [DeletePass(gone)];
    assert Run(marked, [DeletePass(gone)]) == Run(end, [DeletePass(gone)][1..]) == Some(end);
  }

  // ---------------------------------------------------------------- one pass, written out

  /** A live pass works at Aiven exactly if its preconditions are met, its finalizer is stored for certain, and there is
      a client; it stores the finalizer in any case. */
  lemma LivePassExactly(w: World, e: PassEvents, next: World)
    requires Next(w, Pass(e)) == Some(next)
    ensures var cr := w.cr.value;
            var works := e.gate.Passed? && (cr.finalizer || e.addFinalizer.Acknowledged?) && e.client;
            && next.cr == Some(cr.(
                 finalizer := cr.finalizer || (e.gate.Passed? && !e.addFinalizer.Rejected?),
                 running := if works then e.runningAfter else cr.running))
            && next.remote == (w.remote || (works && e.remoteAfter))
            && next.abandoned == (w.abandoned && !works)
  {
  }

  /** A deletion pass asks Aiven exactly if there is no policy. The object goes exactly if it was told to leave the
      remote resource alone, or Aiven has deleted it, skipped it, or refused the token of a resource that never ran. */
  lemma DeletionPassExactly(w: World, d: DeleteEvents, next: World)
    requires Next(w, DeletePass(d)) == Some(next)
    ensures var cr := w.cr.value;
            var asks := cr.finalizer && cr.policy.None? && d.client;
            var left := d.result.Skipped? || (d.result.InvalidToken? && !cr.running);
            var orphaned := cr.finalizer && cr.policy == Some("Orphan");
            var goes := orphaned || (asks && (d.result.Deleted? || left));
            && (next.cr.None? <==> goes && !d.removeFinalizer.Rejected?)
            && next.remote == (if asks then d.remoteAfter else w.remote)
            && next.abandoned == (w.abandoned || (next.cr.None? && (orphaned || left)))
            && (next.cr.Some? ==>
                  next.cr.value == cr.(deleteError :=
                    cr.deleteError ||
                    (cr.finalizer && !goes && (cr.policy.Some? || (asks && !d.result.InProgress?)))))
  {
  }

  // ---------------------------------------------------------------- the reconciler itself

  datatype PassResult = Done | Requeue | Failure

  /** The API server and Aiven, as far as one custom resource is concerned. */
  class Reconciler {
    var cr: Option<Resource>
    var remote: bool
    ghost var abandoned: bool

    ghost function Snapshot(): World
      reads this
    {
      World(cr, remote, abandoned)
    }

    method EnsureFinalizer(fate: Fate) returns (ok: bool)
      requires cr.Some? && !cr.value.deleting
      modifies `cr
      ensures cr == Some(old(cr).value.(finalizer := old(cr).value.finalizer || fate.Applied()))
      ensures ok <==> old(cr).value.finalizer || fate.Acknowledged?
    {
      if cr.value.finalizer {
        return true;
      }
      if fate.Applied() {
        cr := Some(cr.value.(finalizer := true));
      }
      return fate.Acknowledged?;
    }

    /** The write with which the object goes. */
    method RemoveFinalizer(fate: Fate) returns (ok: bool)
      modifies `cr
      ensures cr == if fate.Applied() then None else old(cr)
      ensures ok <==> fate.Acknowledged?
    {
      if fate.Applied() {
        cr := None;
      }
      return fate.Acknowledged?;
    }

    method HandleDeleteError(result: DeleteResult) returns (outcome: PassResult)
      requires cr.Some?
      modifies `cr
      ensures cr == Some(old(cr).value.(deleteError := true))
      ensures outcome == if result.Dependencies? || result.ServerError? then Requeue else Failure
    {
      cr := Some(cr.value.(deleteError := true));
      match result
      case Dependencies => return Requeue;
      case NotFound => return Failure;
      case ServerError => return Requeue;
      case _ => return Failure;
    }

    method ReconcileDeletion(d: DeleteEvents) returns (outcome: PassResult)
      requires cr.Some? && cr.value.deleting && KeepsContract(remote, d)
      modifies this
      ensures Next(old(Snapshot()), DeletePass(d)) == Some(Snapshot())
      ensures old(cr.value.finalizer && !KnownPolicy(cr.value)) ==>
              outcome.Failure? && remote == old(remote) && cr.Some?
      ensures cr.None? ==> old(cr.value.finalizer)
      // Delete is called without a policy only. While it is under way, or stopped by dependencies or a server error,
      // the pass comes back.
      ensures outcome.Requeue? <==>
                && old(cr).value.finalizer && old(cr).value.policy.None? && d.client
                && (d.result.InProgress? || d.result.Dependencies? || d.result.ServerError?)
      ensures outcome.Done? <==>
                || !old(cr).value.finalizer
                || (d.removeFinalizer.Acknowledged? &&
                    (old(cr).value.policy == Some("Orphan") ||
                     (old(cr).value.policy.None? && d.client &&
                      (d.result.Deleted? || d.result.Skipped? || (d.result.InvalidToken? && !old(cr).value.running)))))
    {
      if !cr.value.finalizer {
        return Done;
      }
      if cr.value.policy.None? {
        if !d.client {
          return Failure;
        }
        remote := d.remoteAfter;
        if d.result.InProgress? {
          return Requeue;
        }
        var invalidToken := d.result.InvalidToken? && !cr.value.running;
        if !d.result.Deleted? && !d.result.Skipped? && !invalidToken {
          outcome := HandleDeleteError(d.result);
          return;
        }
      } else if cr.value.policy.value != ORPHAN {
        cr := Some(cr.value.(deleteError := true));
        return Failure;
      }
      if d.removeFinalizer.Applied() {
        abandoned := abandoned || Deliberate(cr.value, d.result);
      }
      var ok := RemoveFinalizer(d.removeFinalizer);
      return if ok then Done else Failure;
    }

    /** A pass on a resource that is not being deleted, up to what Observe, Create and Update do remotely. */
    method ReconcileLive(e: PassEvents) returns (outcome: PassResult)
      requires cr.Some? && !cr.value.deleting
      modifies this
      ensures Next(old(Snapshot()), Pass(e)) == Some(Snapshot())
      // Nothing happens at Aiven before the finalizer is stored.
      ensures remote != old(remote) ==> cr.Some? && cr.value.finalizer
      // Done stands for a pass that gets to Observe, Create and Update.
      ensures outcome.Requeue? <==> e.gate.RefsPending?
      ensures outcome.Done? <==>
                e.gate.Passed? && (old(cr).value.finalizer || e.addFinalizer.Acknowledged?) && e.client
    {
      match e.gate {
        case RefsPending => return Requeue;
        case Failing => return Failure;
        case Passed =>
      }
      var ok := EnsureFinalizer(e.addFinalizer);
      if !ok {
        return Failure;
      }
      if !e.client {
        return Failure;
      }
      remote := remote || e.remoteAfter;
      cr := Some(cr.value.(running := e.runningAfter));
      abandoned := false;
      return Done;
    }

    method Reconcile(e: PassEvents, d: DeleteEvents) returns (outcome: PassResult)
      requires cr.Some? && cr.value.deleting ==> KeepsContract(remote, d)
      modifies this
      ensures old(cr.None?) ==> Snapshot() == old(Snapshot())
      ensures old(cr.Some?) ==>
                Next(old(Snapshot()), if old(cr.value.deleting) then DeletePass(d) else Pass(e)) == Some(Snapshot())
    {
      if cr.None? {
        return Done;
      }
      if cr.value.deleting {
        outcome := ReconcileDeletion(d);
      } else {
        outcome := ReconcileLive(e);
      }
    }
  }
}
