/** Which objects the watch controller invalidates when a Secret changes, and which invalidations it gives up. */
module SecretWatch {
  import opened Base
  import AnnotationPatch
  import Invalidation

  datatype Key = Key(kind: string, namespace: string, name: string)

  datatype SecretKey = SecretKey(namespace: string, name: string)

  /** An object of a kind that may read a Secret, and the name of the Secret it reads. */
  datatype Resource = Resource(source: Option<string>, content: Invalidation.Object)

  type Objects = map<Key, Resource>

  // ---------------------------------------------------------------- the index

  function IndexValue(namespace: string, name: string): string {
    namespace + "/" + name
  }

  function IndexValues(key: Key, r: Resource): seq<string> {
    if r.source.Some? then [IndexValue(key.namespace, r.source.value)] else []
  }

  predicate Uses(key: Key, r: Resource, secret: SecretKey) {
    r.source == Some(secret.name) && key.namespace == secret.namespace
  }

  /** Kubernetes namespaces hold no slash, so the joined key tells Secrets apart. */
  lemma {:induction false} IndexValueIsInjective(a: string, x: string, b: string, y: string)
    requires '/' !in a && '/' !in b
    ensures IndexValue(a, x) == IndexValue(b, y) <==> a == b && x == y
    decreases |a|
  {
    var s, t := IndexValue(a, x), IndexValue(b, y);
    if a != [] && b != [] {
      IndexValueIsInjective(a[1..], x, b[1..], y);
      assert s[1..] == IndexValue(a[1..], x) && t[1..] == IndexValue(b[1..], y);
      assert s == [a[0]] + s[1..] && t == [b[0]] + t[1..];
      assert a == [a[0]] + a[1..] && b == [b[0]] + b[1..];
    } else {
      assert s[|a|] == '/' && t[|b|] == '/';
      assert s[|a| + 1..] == x && t[|b| + 1..] == y;
    }
  }

  ghost predicate NamespacesAreNames(objects: Objects, secret: SecretKey) {
    '/' !in secret.namespace && forall key | key in objects :: '/' !in key.namespace
  }

  /** What the API lists for a kind by index value, in any order. */
  ghost predicate IsListing(listing: seq<Key>, objects: Objects, kind: string, value: string) {
    forall key :: key in listing <==> key in objects && key.kind == kind && value in IndexValues(key, objects[key])
  }

  // ---------------------------------------------------------------- one pass of the watch controller

  /** The copy from which the trigger is made, if the object can be read again, and what becomes of the patch. */
  datatype Call = Call(copy: Option<Invalidation.Object>, patch: Fate, stamp: string)

  predicate Reaches(calls: map<Key, Call>, key: Key) {
    key in calls && calls[key].copy.Some? && calls[key].patch.Applied()
  }

  /** The objects after triggering these. */
  function Triggered(objects: Objects, keys: set<Key>, calls: map<Key, Call>): Objects {
    map key | key in objects ::
      if key in keys && Reaches(calls, key)
      then objects[key].(
             content := Invalidation.Triggered(objects[key].content, calls[key].copy.value, calls[key].stamp))
      else objects[key]
  }

  lemma TriggeredTwice(o: Invalidation.Object, copy: Invalidation.Object, stamp: string)
    ensures var once := Invalidation.Triggered(o, copy, stamp); Invalidation.Triggered(once, copy, stamp) == once
  {
    var once := Invalidation.Triggered(o, copy, stamp);
    var twice := Invalidation.Triggered(once, copy, stamp);
    Invalidation.TriggeredLookups(o, copy, stamp);
    Invalidation.TriggeredLookups(once, copy, stamp);
    forall key: string
      ensures AnnotationPatch.Lookup(twice.annotations, key) == AnnotationPatch.Lookup(once.annotations, key)
    {
    }
    AnnotationPatch.SameLookups(twice.annotations, once.annotations);
  }

  lemma TriggeredOneMore(objects: Objects, keys: set<Key>, key: Key, calls: map<Key, Call>)
    ensures Triggered(Triggered(objects, keys, calls), {key}, calls) == Triggered(objects, keys + {key}, calls)
  {
    if key in objects && Reaches(calls, key) {
      TriggeredTwice(objects[key].content, calls[key].copy.value, calls[key].stamp);
    }
  }

  function Elements(keys: seq<Key>): set<Key> {
    set key | key in keys
  }

  lemma ElementsOneMore(keys: seq<Key>, i: nat)
    requires i < |keys|
    ensures Elements(keys[..i + 1]) == Elements(keys[..i]) + {keys[i]}
  {
    assert keys[..i + 1] == keys[..i] + [keys[i]];
  }

  /** What reading the changed Secret gives. */
  datatype SecretRead = Present | Gone | Unreadable

  class Controller {
    const sources: seq<string>
    var objects: Objects

    constructor (sources: seq<string>, objects: Objects)
      ensures this.sources == sources && this.objects == objects
    {
      this.sources, this.objects := sources, objects;
    }

    ghost predicate Listings(listings: seq<Option<seq<Key>>>, secret: SecretKey)
      reads this
    {
      |listings| == |sources| && forall i | 0 <= i < |sources| && listings[i].Some? ::
        IsListing(listings[i].value, objects, sources[i], IndexValue(secret.namespace, secret.name))
    }

    /** Exactly the objects of the watched kinds that read the Secret, unless a listing fails. */
    method FindResourcesUsingSecret(secret: SecretKey, listings: seq<Option<seq<Key>>>)
      returns (readers: Option<seq<Key>>)
      requires Listings(listings, secret) && NamespacesAreNames(objects, secret)
      ensures readers.None? <==> exists i | 0 <= i < |listings| :: listings[i].None?
      ensures readers.Some? ==> forall key :: key in readers.value <==>
                key in objects && key.kind in sources &&
                objects[key].source == Some(secret.name) && key.namespace == secret.namespace
    {
      var all: seq<Key> := [];
      for i := 0 to |sources|
        invariant forall j | 0 <= j < i :: listings[j].Some?
        invariant forall key :: key in all <==>
                    key in objects && key.kind in sources[..i] && Uses(key, objects[key], secret)
      {
        if listings[i].None? {
          return None;
        }
        forall key | key in objects
          ensures IndexValue(secret.namespace, secret.name) in IndexValues(key, objects[key]) <==>
                  Uses(key, objects[key], secret)
        {
          if objects[key].source.Some? {
            IndexValueIsInjective(key.namespace, objects[key].source.value, secret.namespace, secret.name);
          }
        }
        assert sources[..i + 1] == sources[..i] + [sources[i]];
        all := all + listings[i].value;
      }
      assert sources[..|sources|] == sources;
      readers := Some(all);
    }

    /** Reads a copy of the object and patches the current one. */
    method TriggerReconciliation(key: Key, call: Call) returns (ok: bool)
      requires key in objects
      modifies this`objects
      ensures objects == Triggered(old(objects), {key}, map[key := call])
      ensures ok ==> call.copy.Some? && call.patch.Acknowledged?
    {
      ok := call.copy.Some? && call.patch.Acknowledged?;
      if call.copy.Some? && call.patch.Applied() {
        var r := objects[key];
        objects := objects[key := r.(content := Invalidation.Triggered(r.content, call.copy.value, call.stamp))];
      }
    }

    /** A pass triggers every object that reads the Secret, and nothing if the Secret is gone. A trigger that fails is
        logged, and the pass succeeds all the same. */
    method Reconcile(secret: SecretKey, answer: SecretRead, listings: seq<Option<seq<Key>>>, calls: map<Key, Call>)
      returns (ok: bool)
      requires Listings(listings, secret) && NamespacesAreNames(objects, secret)
      requires objects.Keys <= calls.Keys
      modifies this`objects
      ensures ok <==> answer.Gone? || (answer.Present? && forall i | 0 <= i < |listings| :: listings[i].Some?)
      ensures !ok || answer.Gone? ==> objects == old(objects)
      ensures ok && answer.Present? ==>
                objects == Triggered(old(objects), Readers(old(objects), sources, secret), calls)
    {
      match answer {
        case Gone => return true;
        case Unreadable => return false;
        case Present =>
      }
      var found := FindResourcesUsingSecret(secret, listings);
      if found.None? {
        return false;
      }
      ok := true;
      ghost var start := objects;
      for i := 0 to |found.value|
        invariant objects == Triggered(start, Elements(found.value[..i]), calls)
      {
        var key := found.value[i];
        assert key in found.value;
        TriggeredOneMore(start, Elements(found.value[..i]), key, calls);
        ElementsOneMore(found.value, i);
        TriggeredByOneCall(objects, key, calls);
        var triggered := TriggerReconciliation(key, calls[key]);
      }
      assert found.value[..|found.value|] == found.value;
      assert Elements(found.value) == Readers(start, sources, secret);
    }
  }

  lemma TriggeredByOneCall(objects: Objects, key: Key, calls: map<Key, Call>)
    requires key in calls
    ensures Triggered(objects, {key}, map[key := calls[key]]) == Triggered(objects, {key}, calls)
  {
  }

  /** The objects of the watched kinds that read the Secret. */
  function Readers(objects: Objects, sources: seq<string>, secret: SecretKey): set<Key> {
    set key | key in objects && key.kind in sources && Uses(key, objects[key], secret)
  }

  // ---------------------------------------------------------------- what a pass achieves

  /** After a pass an object lacks the processed mark exactly if it lacked it before, or if it reads the Secret and was
      reached by a trigger made from a copy that had the mark. A successful pass is not repeated, so where a read or a
      patch failed, or the copy was from before the mark, the change of the Secret is missed until the object is
      processed for another reason. */
  lemma InvalidatedExactlyIfReached(
    objects: Objects, sources: seq<string>, secret: SecretKey, calls: map<Key, Call>, key: Key)
    requires key in objects
    ensures var after := Triggered(objects, Readers(objects, sources, secret), calls)[key];
            && (Invalidation.PROCESSED !in after.content.annotations <==>
                  Invalidation.PROCESSED !in objects[key].content.annotations ||
                  (key.kind in sources && objects[key].source == Some(secret.name) &&
                   key.namespace == secret.namespace &&
                   key in calls && calls[key].copy.Some? && !calls[key].patch.Rejected? &&
                   Invalidation.PROCESSED in calls[key].copy.value.annotations))
            && after.source == objects[key].source && after.content.status == objects[key].content.status
            && after.content.generation == objects[key].content.generation
  {
    if Reaches(calls, key) {
      Invalidation.TriggeredLookups(objects[key].content, calls[key].copy.value, calls[key].stamp);
    }
  }
}
