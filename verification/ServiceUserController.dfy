/** The deletion side of the ServiceUser controller, as runs of the shared-user machine. */
module ServiceUserController {
  import opened Base
  import opened SharedServiceUsers

  /** What the remote answers to a delete request. */
  datatype Answer = Ok | NotFound | Failure

  /** What Delete returns: nil, errDeletionSkipped, or an error that brings the pass back later. */
  datatype Outcome = Deleted | Skipped | Retry

  /** One entry of the list the Kubernetes API returns. */
  datatype Item = Item(key: Key, resource: ServiceUser)

  /** The list holds every object, in any order. */
  ghost predicate Lists(items: seq<Item>, objects: map<Key, ServiceUser>) {
    && (forall item | item in items :: item.key in objects && objects[item.key] == item.resource)
    && (forall key | key in objects :: Item(key, objects[key]) in items)
  }

  method FindDuplicate(items: seq<Item>, key: Key, user: RemoteUser, ghost objects: map<Key, ServiceUser>)
    returns (found: Option<Key>)
    requires Lists(items, objects) && key in objects && objects[key].user == user
    ensures found.Some? <==> HasDuplicate(objects, key)
    ensures found.Some? ==>
              && found.value in objects && found.value != key && !objects[found.value].deleting
              && objects[found.value].user == user
  {
    for i := 0 to |items|
      invariant forall j | 0 <= j < i :: !IsDuplicate(objects, key, items[j].key)
    {
      var o := items[i];
      assert o in items;
      if !(o.key == key || o.resource.deleting) && o.resource.user == user {
        assert IsDuplicate(objects, key, o.key);
        return Some(o.key);
      }
    }
    found := None;
    forall other | other in objects
      ensures !IsDuplicate(objects, key, other)
    {
      assert Item(other, objects[other]) in items;
    }
  }

  class Controller {
    var objects: map<Key, ServiceUser>
    var remote: set<RemoteUser>
    ghost var forsaken: set<RemoteUser>

    constructor (objects: map<Key, ServiceUser>, remote: set<RemoteUser>)
      ensures this.objects == objects && this.remote == remote && forsaken == {}
    {
      this.objects, this.remote, forsaken := objects, remote, {};
    }

    ghost function Snapshot(): World
      reads this
    {
      World(objects, remote, forsaken)
    }

    /** How far the pass over this object has got. */
    method SetStep(key: Key, step: Step)
      requires key in objects
      modifies this`objects
      ensures objects == old(objects)[key := old(objects)[key].(step := step)]
    {
      var user := objects[key];
      objects := objects[key := ServiceUser(user.user, user.finalizer, user.deleting, step)];
    }

    /** The delete call: it takes the user away when it is applied, and says "not found" when there was none. */
    method ServiceUserDelete(user: RemoteUser, fate: Fate) returns (answer: Answer)
      modifies this`remote
      ensures remote == if fate.Applied() then old(remote) - {user} else old(remote)
      ensures answer == if !fate.Acknowledged? then Failure else if user in old(remote) then Answer.Ok else NotFound
    {
      answer := if !fate.Acknowledged? then Failure else if user in remote then Answer.Ok else NotFound;
      if fate.Applied() {
        remote := remote - {user};
      }
    }

    /** A built-in user and a shared user are left alone, a missing user counts as deleted. */
    method Delete(key: Key, listing: Option<seq<Item>>, fate: Fate)
        returns (outcome: Outcome, ghost actions: seq<Action>)
      requires key in objects && (listing.Some? ==> Lists(listing.value, objects))
      requires objects[key].deleting && objects[key].finalizer && objects[key].step.NoPass?
      modifies this
      ensures Run(old(Snapshot()), actions) == Some(Snapshot())
      ensures var user := old(objects)[key].user;
              var shared := exists other | other in old(objects) && other != key && !old(objects)[other].deleting ::
                              old(objects)[other].user == user;
              var asks := user.username != "avnadmin" && listing.Some? && !shared;
              && outcome == (if user.username == "avnadmin" then Deleted
                             else if listing.None? then Retry
                             else if shared then Skipped
                             else if fate.Acknowledged? then Deleted else Retry)
              && remote == if asks && fate.Applied() then old(remote) - {user} else old(remote)
      ensures objects == old(objects)[key := old(objects)[key].(step := match outcome {
                case Deleted => Done case Skipped => Skipping case Retry => NoPass
              })]
    {
      var user := objects[key].user;
      ghost var start := Snapshot();
      DuplicateExactly(objects, key);
      actions := [Check(key)];
      if user.username == BUILT_IN_USER {
        SetStep(key, Done);
        RunOneMore(start, [], start, Check(key), Snapshot());
        return Deleted, actions;
      }
      if listing.None? {
        assert objects == objects[key := objects[key].(step := NoPass)];
        return Retry, [];
      }
      var duplicate := FindDuplicate(listing.value, key, user, objects);
      if duplicate.Some? {
        if AnswersAlone(start, key) {
          forsaken := forsaken + {user};
        }
        SetStep(key, Skipping);
        RunOneMore(start, [], start, Check(key), Snapshot());
        return Skipped, actions;
      }
      SetStep(key, Deleting({}));
      ghost var checked := Snapshot();
      RunOneMore(start, [], start, Check(key), checked);
      var answer := ServiceUserDelete(user, fate);
      SetStep(key, if answer.Failure? then NoPass else Done);
      RunOneMore(start, actions, checked, RemoteDelete(key, fate), Snapshot());
      actions := actions + [RemoteDelete(key, fate)];
      outcome := if answer.Failure? then Retry else Deleted;
    }

    /** Takes the finalizer off, and the object with it. */
    method RemoveFinalizer(key: Key, fate: Fate) returns (ok: bool)
      requires key in objects && (objects[key].step.Skipping? || objects[key].step.Done?)
      modifies this
      ensures Next(old(Snapshot()), Release(key, fate)) == Some(Snapshot())
      ensures ok == fate.Acknowledged? && (key !in objects <==> fate.Applied()) && remote == old(remote)
    {
      if fate.Applied() {
        objects := objects - {key};
      } else {
        forsaken := forsaken - {objects[key].user};
        SetStep(key, NoPass);
      }
      ok := fate.Acknowledged?;
    }

    /** The rest of the pass: a finished or skipped deletion takes the finalizer off. */
    method ReconcileDeletion(key: Key, listing: Option<seq<Item>>, deleteFate: Fate, releaseFate: Fate)
      returns (released: bool, ghost actions: seq<Action>)
      requires key in objects && (listing.Some? ==> Lists(listing.value, objects))
      requires objects[key].deleting && objects[key].finalizer && objects[key].step.NoPass?
      modifies this
      ensures Run(old(Snapshot()), actions) == Some(Snapshot())
      // The finalizer goes, and the object with it, when the user is built in, shared, or gone.
      ensures var user := old(objects)[key].user;
              var shared := exists other | other in old(objects) && other != key && !old(objects)[other].deleting ::
                              old(objects)[other].user == user;
              var asks := user.username != "avnadmin" && listing.Some? && !shared;
              var goes := user.username == "avnadmin" || (listing.Some? && (shared || deleteFate.Acknowledged?));
              && (key !in objects <==> goes && releaseFate.Applied())
              && (released <==> goes && releaseFate.Acknowledged?)
              && remote == if asks && deleteFate.Applied() then old(remote) - {user} else old(remote)
    {
      var outcome;
      outcome, actions := Delete(key, listing, deleteFate);
      if outcome.Retry? {
        return false, actions;
      }
      ghost var here := Snapshot();
      released := RemoveFinalizer(key, releaseFate);
      RunOneMore(old(Snapshot()), actions, here, Release(key, releaseFate), Snapshot());
      actions := actions + [Release(key, releaseFate)];
    }
  }
}
