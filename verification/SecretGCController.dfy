/** One pass of the Secret finalizer controller, proved to be a run of the machine in SecretFinalizerGC. */
module SecretGCController {
  import opened Base
  import opened SecretFinalizerGC

  datatype Verdict = NotNeeded | StillNeeded | ListFailed

  class Controller {
    var secrets: map<SecretKey, SecretState>
    var refs: map<ObjectKey, Option<string>>
    var kinds: seq<string>
    var queue: set<SecretKey>

    ghost function Snapshot(pass: Option<Pass>): World
      reads this
    {
      World(secrets, refs, kinds, queue, pass)
    }

    /** Lists the objects of one kind that name the Secret. A listing that fails brings the Secret back. */
    method ListObjects(secret: SecretKey, kind: string, ghost rest: seq<string>, fails: bool)
      returns (verdict: Verdict)
      modifies `queue
      ensures queue == if fails then old(queue) + {secret} else old(queue)
      ensures Next(old(Snapshot(Some(Pass(secret, [kind] + rest, {})))), ListKind(fails))
              == Some(Snapshot(if verdict.NotNeeded? then Some(Pass(secret, rest, {})) else None))
      ensures verdict.ListFailed? <==> fails
      ensures !fails ==> (verdict.StillNeeded? <==> NeededByKind(Snapshot(None), kind, secret))
    {
      ghost var start := Snapshot(Some(Pass(secret, [kind] + rest, {})));
      assert ([kind] + rest)[1..] == rest;
      if fails {
        queue := queue + {secret};
        return ListFailed;
      }
      var found := exists key | key in refs :: Names(key, refs[key], kind, secret);
      assert found <==> NeededByKind(start, kind, secret);
      assert found <==> NeededByKind(Snapshot(None), kind, secret);
      verdict := if found then StillNeeded else NotNeeded;
    }

    /** Lists one kind after the other; the listing with the given number fails. */
    method SecretIsStillNeeded(secret: SecretKey, failing: int) returns (verdict: Verdict, ghost actions: seq<Action>)
      modifies `queue
      ensures queue == if verdict.ListFailed? then old(queue) + {secret} else old(queue)
      ensures Run(old(Snapshot(Some(Pass(secret, kinds, {})))), actions)
              == Some(Snapshot(if verdict.NotNeeded? then Some(Pass(secret, [], {})) else None))
      ensures verdict.NotNeeded? ==> !Needed(Snapshot(None), secret)
      ensures verdict.StillNeeded? ==> Needed(Snapshot(None), secret)
      ensures verdict.ListFailed? ==> 0 <= failing < |kinds|
    {
      ghost var start := Snapshot(Some(Pass(secret, kinds, {})));
      actions := [];
      for i := 0 to |kinds|
        invariant queue == old(queue)
        invariant forall j | 0 <= j < i :: !NeededByKind(Snapshot(None), kinds[j], secret)
        invariant Run(start, actions) == Some(Snapshot(Some(Pass(secret, kinds[i..], {}))))
      {
        ghost var here, step := Snapshot(Some(Pass(secret, kinds[i..], {}))), ListKind(i == failing);
        assert kinds[i..] == [kinds[i]] + kinds[i + 1..];
        verdict := ListObjects(secret, kinds[i], kinds[i + 1..], i == failing);
        RunOneMore(start, actions, here, step,
                   Snapshot(if verdict.NotNeeded? then Some(Pass(secret, kinds[i + 1..], {})) else None));
        actions := actions + [step];
        if !verdict.NotNeeded? {
          return verdict, actions;
        }
      }
      assert kinds[|kinds|..] == [];
      return NotNeeded, actions;
    }

    /** A request from the queue, handled without interruption. */
    method Reconcile(secret: SecretKey, readable: bool, failing: int, fate: Fate) returns (ghost actions: seq<Action>)
      requires secret in queue
      modifies this
      ensures Run(old(Snapshot(None)), actions) == Some(Snapshot(None))
      // Only the requested Secret changes, and only when no enabled object in its namespace names it.
      ensures forall other | other != secret ::
                && (other in secrets <==> other in old(secrets))
                && (other in secrets ==> secrets[other] == old(secrets)[other])
      ensures old(Needed(Snapshot(None), secret)) ==> secrets == old(secrets)
      // A Secret that cannot be read stays as it is, and in the queue.
      ensures !readable ==> secret in queue && secrets == old(secrets)
      // A protected Secret that nothing names loses its finalizer unless a call fails.
      ensures old(secret in secrets && secrets[secret].protected && !Needed(Snapshot(None), secret)) &&
              readable && fate.Applied() && !(0 <= failing < |kinds|) ==>
                secret !in secrets || !secrets[secret].protected
      ensures refs == old(refs) && kinds == old(kinds)
    {
      ghost var start := Snapshot(None);
      if !readable {
        RunOneMore(start, [], start, Dequeue(secret, true), start);
        return [Dequeue(secret, true)];
      }
      queue := queue - {secret};
      if secret !in secrets || !secrets[secret].protected {
        RunOneMore(start, [], start, Dequeue(secret, false), Snapshot(None));
        return [Dequeue(secret, false)];
      }
      ghost var begun := Snapshot(Some(Pass(secret, kinds, {})));
      RunOneMore(start, [], start, Dequeue(secret, false), begun);
      actions := [Dequeue(secret, false)];
      var verdict;
      ghost var more;
      SameNeeds(start, Snapshot(None), secret);
      verdict, more := SecretIsStillNeeded(secret, failing);
      RunAppend(start, actions, more);
      actions := actions + more;
      SameNeeds(start, Snapshot(None), secret);
      if !verdict.NotNeeded? {
        return;
      }
      ghost var listed := Snapshot(Some(Pass(secret, [], {})));
      RemoveFinalizer(secret, fate);
      RunOneMore(start, actions, listed, Release(fate), Snapshot(None));
      actions := actions + [Release(fate)];
    }

    /** Removes the finalizer from the current object; a deleting object goes with its last finalizer. */
    method RemoveFinalizer(secret: SecretKey, fate: Fate)
      requires secret in secrets
      modifies `secrets, `queue
      ensures Next(old(Snapshot(Some(Pass(secret, [], {})))), Release(fate)) == Some(Snapshot(None))
      ensures forall other | other != secret ::
                && (other in secrets <==> other in old(secrets))
                && (other in secrets ==> secrets[other] == old(secrets)[other])
      ensures fate.Applied() ==> secret !in secrets || !secrets[secret].protected
    {
      var requests := if fate.Acknowledged? then {} else {secret};
      if fate.Applied() {
        var before := secrets[secret];
        if before.deleting {
          secrets := secrets - {secret};
          requests := requests + OnDelete(SecretObject(secret, before));
        } else {
          var after := before.(protected := false);
          secrets := secrets[secret := after];
          requests := requests + OnUpdate(SecretObject(secret, before), SecretObject(secret, after));
        }
      }
      queue := queue + requests;
    }
  }
}
