/** The controller that takes the protection finalizer off token Secrets nobody needs any more.

    It runs from a queue that is filled by watch events and lost when the operator restarts. A pass
    lists one kind after the other, so objects may change between its listings. */
module SecretFinalizerGC {
  import opened Base

  datatype SecretKey = SecretKey(namespace: string, name: string)

  datatype SecretState = SecretState(deleting: bool, protected: bool)

  datatype ObjectKey = ObjectKey(kind: string, namespace: string, name: string)

  datatype KubeObject =
    | SecretObject(secret: SecretKey, state: SecretState)
    | AivenObject(key: ObjectKey, authSecretRef: Option<string>)

  // ---------------------------------------------------------------- which events reach the queue

  predicate ProtectedSecretIsDeleting(obj: KubeObject) {
    obj.SecretObject? && obj.state.deleting && obj.state.protected
  }

  function AuthSecretRefName(obj: KubeObject): string {
    if obj.AivenObject? && obj.authSecretRef.Some? then obj.authSecretRef.value else ""
  }

  function Requests(obj: KubeObject): set<SecretKey> {
    match obj
    case SecretObject(secret, _) => {secret}
    case AivenObject(key, None) => {}
    case AivenObject(key, Some(name)) => {SecretKey(key.namespace, name)}
  }

  function OnCreate(obj: KubeObject): set<SecretKey> {
    if ProtectedSecretIsDeleting(obj) then Requests(obj) else {}
  }

  /** An update is mapped twice, for the old and for the new object. */
  function OnUpdate(before: KubeObject, after: KubeObject): set<SecretKey> {
    if ProtectedSecretIsDeleting(after) || AuthSecretRefName(before) != AuthSecretRefName(after)
    then Requests(before) + Requests(after) else {}
  }

  function OnDelete(obj: KubeObject): set<SecretKey> {
    Requests(obj)
  }

  // ---------------------------------------------------------------- the machine

  /** A pass that has not found an object that needs the Secret. The set is history: the objects that were made to
      name the Secret after the pass had listed their kind. */
  datatype Pass = Pass(secret: SecretKey, remaining: seq<string>, joined: set<ObjectKey>)

  datatype World = World(
    secrets: map<SecretKey, SecretState>,
    refs: map<ObjectKey, Option<string>>,   // the authSecretRef of every object, of whatever kind
    kinds: seq<string>,                     // the enabled kinds, in the order in which they are listed
    queue: set<SecretKey>,
    pass: Option<Pass>)

  datatype Action =
    | PutObject(key: ObjectKey, ref: Option<string>)
    | RemoveObject(key: ObjectKey)
    | CreateSecret(secret: SecretKey)
    | DeleteSecret(secret: SecretKey)
    | Protect(secret: SecretKey)            // by a reconciler that is about to use the token
    | Restart(kinds: seq<string>)
    | Dequeue(secret: SecretKey, fails: bool) // a read that fails brings the Secret back
    | ListKind(fails: bool)
    | Release(fate: Fate)

  predicate Names(key: ObjectKey, ref: Option<string>, kind: string, secret: SecretKey) {
    key.kind == kind && key.namespace == secret.namespace && ref == Some(secret.name)
  }

  /** What a listing by index and namespace finds. */
  predicate NeededByKind(w: World, kind: string, secret: SecretKey) {
    exists key | key in w.refs :: Names(key, w.refs[key], kind, secret)
  }

  predicate Needed(w: World, secret: SecretKey) {
    exists kind | kind in w.kinds :: NeededByKind(w, kind, secret)
  }

  function Enqueue(w: World, requests: set<SecretKey>): World {
    w.(queue := w.queue + requests)
  }

  /** The pass, as seen after an object has come to name a Secret. */
  function Overtake(w: World, key: ObjectKey, ref: Option<string>): Option<Pass> {
    match w.pass
    case None => None
    case Some(p) =>
      if Names(key, ref, key.kind, p.secret) && key.kind in w.kinds && key.kind !in p.remaining then
          Some(p.(joined := p.joined + {key}))
      else Some(p)
  }

  function Replayed(w: World): set<SecretKey> {
    set secret | secret in w.secrets && OnCreate(SecretObject(secret, w.secrets[secret])) != {} :: secret
  }

  function Next(w: World, a: Action): Option<World> {
    match a
    case PutObject(key, ref) =>
      if ref == Some("") then None
      else
        var after := AivenObject(key, ref);
        var requests :=
          if key.kind !in w.kinds then {}
          else if key in w.refs then OnUpdate(AivenObject(key, w.refs[key]), after)
          else OnCreate(after);
        Some(Enqueue(w.(refs := w.refs[key := ref], pass := Overtake(w, key, ref)), requests))
    case RemoveObject(key) =>
      if key !in w.refs then None
      else Some(Enqueue(w.(refs := w.refs - {key}),
                        if key.kind in w.kinds then OnDelete(AivenObject(key, w.refs[key])) else {}))
    case CreateSecret(secret) =>
      if secret in w.secrets || secret.name == "" then None
      else Some(w.(secrets := w.secrets[secret := SecretState(false, false)]))
    case DeleteSecret(secret) =>
      if secret !in w.secrets then None
      else
        var before := w.secrets[secret];
        if !before.protected then
          Some(Enqueue(w.(secrets := w.secrets - {secret}), OnDelete(SecretObject(secret, before))))
        else
          var after := before.(deleting := true);
          Some(Enqueue(w.(secrets := w.secrets[secret := after]),
                       OnUpdate(SecretObject(secret, before), SecretObject(secret, after))))
    case Protect(secret) =>
      // The API server refuses new finalizers on an object that is being deleted.
      if secret !in w.secrets || w.secrets[secret].deleting then None
      else
        var after := w.secrets[secret].(protected := true);
        Some(Enqueue(w.(secrets := w.secrets[secret := after]),
                     OnUpdate(SecretObject(secret, w.secrets[secret]), SecretObject(secret, after))))
    case Restart(kinds) =>
      Some(w.(kinds := kinds, pass := None, queue := Replayed(w)))
    case Dequeue(secret, fails) =>
      if secret !in w.queue || w.pass.Some? then None
      else if fails then Some(w)
      else
        var taken := w.(queue := w.queue - {secret});
        if secret in w.secrets && w.secrets[secret].protected
        then Some(taken.(pass := Some(Pass(secret, w.kinds, {}))))
        else Some(taken)
    case ListKind(fails) =>
      if w.pass.None? || w.pass.value.remaining == [] then None
      else
        var p := w.pass.value;
        if fails then Some(Enqueue(w.(pass := None), {p.secret}))
        else if NeededByKind(w, p.remaining[0], p.secret) then Some(w.(pass := None))
        else Some(w.(pass := Some(p.(remaining := p.remaining[1..]))))
    case Release(fate) =>
      if w.pass.None? || w.pass.value.remaining != [] then None
      else
        var secret := w.pass.value.secret;
        var done := w.(pass := None);
        var requests := if fate.Acknowledged? then {} else {secret};
        if !fate.Applied() || secret !in w.secrets then Some(Enqueue(done, requests))
        else
          var before := w.secrets[secret];
          if before.deleting then
            Some(Enqueue(done.(secrets := w.secrets - {secret}), requests + OnDelete(SecretObject(secret, before))))
          else
            var after := before.(protected := false);
            Some(Enqueue(done.(secrets := w.secrets[secret := after]),
                         requests + OnUpdate(SecretObject(secret, before), SecretObject(secret, after))))
  }

  function Run(w: World, actions: seq<Action>): Option<World>
    decreases |actions|
  {
    if actions == [] then Some(w)
    else
      match Next(w, actions[0])
      case None => None
      case Some(next) => Run(next, actions[1..])
  }

  ghost predicate Initial(w: World) {
    w.secrets == map[] && w.refs == map[] && w.queue == {} && w.pass == None
  }

  ghost predicate Reachable(w: World) {
    exists start, actions :: Initial(start) && Run(start, actions) == Some(w)
  }

  lemma {:induction false} RunAppend(w: World, first: seq<Action>, second: seq<Action>)
    ensures Run(w, first + second) == match Run(w, first) { case None => None case Some(mid) => Run(mid, second) }
    decreases |first|
  {
    if first == [] {
      assert first + second == second;
    } else {
      assert (first + second)[1..] == first[1..] + second;
      match Next(w, first[0]) {
        case None =>
        case Some(next) => RunAppend(next, first[1..], second);
      }
    }
  }

  lemma RunOneMore(start: World, actions: seq<Action>, here: World, a: Action, next: World)
    requires Run(start, actions) == Some(here) && Next(here, a) == Some(next)
    ensures Run(start, actions + [a]) == Some(next)
  {
    RunAppend(start, actions, [a]);
    assert Run(here, [a]) == Some(next);
  }

  // ---------------------------------------------------------------- what each event enqueues

  /** The Secret that an object names. */
  function Named(key: ObjectKey, ref: Option<string>): set<SecretKey> {
    if ref.Some? && ref.value != "" then {SecretKey(key.namespace, ref.value)} else {}
  }

  /** An object of an enabled kind enqueues both Secrets when it comes to name another one, and its Secret when it
      goes; a Secret is enqueued when its deletion is asked for; and a restart enqueues the protected Secrets whose
      deletion was asked for, and nothing else. */
  lemma EventEnqueues(w: World, a: Action, next: World)
    requires AllNamed(w) && Next(w, a) == Some(next)
    ensures match a
            case PutObject(key, ref) =>
              next.queue == w.queue +
                (if key.kind in w.kinds && key in w.refs && w.refs[key] != ref
                 then Named(key, w.refs[key]) + Named(key, ref) else {})
            case RemoveObject(key) => next.queue == w.queue + if key.kind in w.kinds then Named(key, w.refs[key])
                 else {}
            case CreateSecret(_) => next.queue == w.queue
            case DeleteSecret(secret) => next.queue == w.queue + {secret}
            case Protect(_) => next.queue == w.queue
            case Restart(_) =>
              forall secret :: secret in next.queue <==>
                secret in w.secrets && w.secrets[secret].deleting && w.secrets[secret].protected
            case Dequeue(secret, fails) => next.queue == if fails then w.queue else w.queue - {secret}
            case ListKind(fails) => next.queue == w.queue + if fails then {w.pass.value.secret} else {}
            case Release(fate) => next.queue - {w.pass.value.secret} == w.queue - {w.pass.value.secret}
  {
  }

  // ---------------------------------------------------------------- the invariant

  predicate Waiting(w: World, secret: SecretKey) {
    secret in w.queue || (w.pass.Some? && w.pass.value.secret == secret)
  }

  predicate Releasable(w: World, secret: SecretKey) {
    secret in w.secrets && w.secrets[secret].deleting && w.secrets[secret].protected && !Needed(w, secret)
  }

  ghost predicate PassInv(w: World, p: Pass) {
    && |p.remaining| <= |w.kinds| && p.remaining == w.kinds[|w.kinds| - |p.remaining|..]
    && (forall key | key in w.refs && key.kind in w.kinds && key.kind !in p.remaining ::
          Names(key, w.refs[key], key.kind, p.secret) ==> key in p.joined)
  }

  ghost predicate AllWaiting(w: World) {
    forall secret | Releasable(w, secret) :: Waiting(w, secret)
  }

  ghost predicate AllNamed(w: World) {
    && (forall secret | secret in w.secrets :: secret.name != "")
    && (forall key | key in w.refs :: w.refs[key] != Some(""))
  }

  ghost predicate Inv(w: World) {
    AllWaiting(w) && AllNamed(w) && (w.pass.Some? ==> PassInv(w, w.pass.value))
  }

  /** Whoever stops naming a Secret puts it in the queue. */
  lemma LastReferenceEnqueues(w: World, a: Action, next: World, secret: SecretKey)
    requires Inv(w) && Next(w, a) == Some(next)
    requires a.PutObject? || a.RemoveObject?
    requires secret.name != "" && Needed(w, secret) && !Needed(next, secret)
    ensures secret in next.queue
  {
    var kind :| kind in w.kinds && NeededByKind(w, kind, secret);
    var key :| key in w.refs && Names(key, w.refs[key], kind, secret);
    assert !NeededByKind(next, kind, secret);
    assert key in next.refs ==> !Names(key, next.refs[key], kind, secret);
    assert a.key == key;
    assert secret == SecretKey(key.namespace, w.refs[key].value);
  }

  lemma ReferenceChangeKeepsWaiting(w: World, a: Action, next: World, secret: SecretKey)
    requires Inv(w) && Next(w, a) == Some(next) && Releasable(next, secret)
    requires a.PutObject? || a.RemoveObject?
    ensures Waiting(next, secret)
  {
    if Needed(w, secret) {
      LastReferenceEnqueues(w, a, next, secret);
    } else {
      assert Releasable(w, secret) && Waiting(w, secret);
    }
  }

  lemma SecretChangeKeepsWaiting(w: World, a: Action, next: World, secret: SecretKey)
    requires AllWaiting(w) && Next(w, a) == Some(next) && Releasable(next, secret)
    requires a.CreateSecret? || a.DeleteSecret? || a.Protect?
    ensures Waiting(next, secret)
  {
    SameNeeds(w, next, secret);
    assert Releasable(w, secret) ==> Waiting(w, secret);
  }

  lemma PassStepKeepsWaiting(w: World, a: Action, next: World, secret: SecretKey)
    requires Inv(w) && Next(w, a) == Some(next) && Releasable(next, secret) && (a.Dequeue? || a.ListKind?)
    ensures Waiting(next, secret)
  {
    SameNeeds(w, next, secret);
    assert Releasable(w, secret) && Waiting(w, secret);
  }

  lemma ReleaseKeepsWaiting(w: World, fate: Fate, next: World, secret: SecretKey)
    requires AllWaiting(w) && Next(w, Release(fate)) == Some(next) && Releasable(next, secret)
    ensures Waiting(next, secret)
  {
    SameNeeds(w, next, secret);
    assert Releasable(w, secret) ==> Waiting(w, secret);
  }

  lemma NextKeepsWaiting(w: World, a: Action, next: World)
    requires Inv(w) && Next(w, a) == Some(next)
    ensures AllWaiting(next)
  {
    forall secret | Releasable(next, secret)
      ensures Waiting(next, secret)
    {
      if a.PutObject? || a.RemoveObject? {
        ReferenceChangeKeepsWaiting(w, a, next, secret);
      } else if a.CreateSecret? || a.DeleteSecret? || a.Protect? {
        SecretChangeKeepsWaiting(w, a, next, secret);
      } else if a.Dequeue? || a.ListKind? {
        PassStepKeepsWaiting(w, a, next, secret);
      } else if a.Release? {
        ReleaseKeepsWaiting(w, a.fate, next, secret);
      }
    }
  }

  lemma SameNeeds(w: World, next: World, secret: SecretKey)
    requires w.refs == next.refs && w.kinds == next.kinds
    ensures Needed(w, secret) <==> Needed(next, secret)
    ensures forall kind :: NeededByKind(w, kind, secret) <==> NeededByKind(next, kind, secret)
  {
  }

  lemma NextKeepsNames(w: World, a: Action, next: World)
    requires AllNamed(w) && Next(w, a) == Some(next)
    ensures AllNamed(next)
  {
  }

  lemma ListKeepsPass(w: World, fails: bool, next: World)
    requires Inv(w) && Next(w, ListKind(fails)) == Some(next) && next.pass.Some?
    ensures PassInv(next, next.pass.value)
  {
    assert !NeededByKind(w, w.pass.value.remaining[0], w.pass.value.secret);
  }

  lemma ChangeKeepsPass(w: World, a: Action, next: World)
    requires Inv(w) && Next(w, a) == Some(next) && next.pass.Some? && (a.PutObject? || a.RemoveObject?)
    ensures PassInv(next, next.pass.value)
  {
  }

  /** Other steps leave the pass and what it has listed alone, or begin a new one. */
  lemma OtherKeepsPass(w: World, a: Action, next: World)
    requires w.pass.Some? ==> PassInv(w, w.pass.value)
    requires Next(w, a) == Some(next) && next.pass.Some? && !(a.ListKind? || a.PutObject? || a.RemoveObject?)
    ensures PassInv(next, next.pass.value)
  {
    if next.pass != w.pass {
      assert next.pass.value.remaining == next.kinds;
    }
  }

  lemma NextKeepsPass(w: World, a: Action, next: World)
    requires Inv(w) && Next(w, a) == Some(next) && next.pass.Some?
    ensures PassInv(next, next.pass.value)
  {
    if a.ListKind? {
      ListKeepsPass(w, a.fails, next);
    } else if a.PutObject? || a.RemoveObject? {
      ChangeKeepsPass(w, a, next);
    } else {
      OtherKeepsPass(w, a, next);
    }
  }

  lemma NextKeepsInv(w: World, a: Action, next: World)
    requires Inv(w) && Next(w, a) == Some(next)
    ensures Inv(next)
  {
    NextKeepsWaiting(w, a, next);
    NextKeepsNames(w, a, next);
    if next.pass.Some? {
      NextKeepsPass(w, a, next);
    }
  }

  lemma {:induction false} RunKeepsInv(w: World, actions: seq<Action>, end: World)
    requires Inv(w) && Run(w, actions) == Some(end)
    ensures Inv(end)
    decreases |actions|
  {
    if actions != [] {
      var next := Next(w, actions[0]).value;
      NextKeepsInv(w, actions[0], next);
      RunKeepsInv(next, actions[1..], end);
    }
  }

  lemma ReachableInv(w: World)
    requires Reachable(w)
    ensures Inv(w)
  {
    var start, actions :| Initial(start) && Run(start, actions) == Some(w);
    RunKeepsInv(start, actions, w);
  }

  // ---------------------------------------------------------------- never stuck

  /** A deleting, protected Secret that no enabled object names is always in the queue or being handled. */
  lemma NeverStuck(w: World, secret: SecretKey)
    requires Reachable(w) && Releasable(w, secret)
    ensures Waiting(w, secret)
  {
    ReachableInv(w);
  }

  /** Left alone, a pass over such a Secret lists every kind and lets it go. */
  function Drain(kinds: seq<string>): seq<Action> {
    if kinds == [] then [Release(Acknowledged)] else [ListKind(false)] + Drain(kinds[1..])
  }

  lemma {:induction false} DrainReleases(w: World, p: Pass)
    requires w.pass == Some(p) && Releasable(w, p.secret)
    requires forall kind | kind in p.remaining :: kind in w.kinds
    ensures Run(w, Drain(p.remaining)).Some?
    ensures p.secret !in Run(w, Drain(p.remaining)).value.secrets
    decreases |p.remaining|
  {
    if p.remaining != [] {
      assert !NeededByKind(w, p.remaining[0], p.secret);
      var q := p.(remaining := p.remaining[1..]);
      var next := w.(pass := Some(q));
      assert Next(w, ListKind(false)) == Some(next);
      SameNeeds(w, next, p.secret);
      DrainReleases(next, q);
      assert Drain(p.remaining)[1..] == Drain(q.remaining);
    } else {
      var end := Next(w, Release(Acknowledged)).value;
      assert Run(end, []) == Some(end);
    }
  }

  /** From every reachable state, the Secret is at most one undisturbed pass away from being released. */
  lemma StuckNowhere(w: World, secret: SecretKey) returns (actions: seq<Action>)
    requires Reachable(w) && Releasable(w, secret) && secret in w.queue && w.pass.None?
    ensures Run(w, actions).Some? && secret !in Run(w, actions).value.secrets
  {
    actions := [Dequeue(secret, false)] + Drain(w.kinds);
    var next := Next(w, Dequeue(secret, false)).value;
    SameNeeds(w, next, secret);
    DrainReleases(next, next.pass.value);
    assert actions[1..] == Drain(w.kinds);
  }

  // ---------------------------------------------------------------- never too early

  /** Some object of an enabled kind was made to name the Secret after its kind was listed, and names it still. */
  predicate IsOvertaken(w: World, p: Pass) {
    exists key | key in p.joined :: key in w.refs && Names(key, w.refs[key], key.kind, p.secret)
  }

  /** A pass takes the finalizer off a Secret that an enabled object names exactly if it was overtaken like that. */
  lemma ReleasedEarlyExactlyIfOvertaken(w: World, fate: Fate, next: World)
    requires Reachable(w) && Next(w, Release(fate)) == Some(next)
    ensures Needed(next, w.pass.value.secret) <==> IsOvertaken(w, w.pass.value)
    ensures fate.Applied() ==>
              w.pass.value.secret !in next.secrets || !next.secrets[w.pass.value.secret].protected
  {
    ReachableInv(w);
    JoinedAreEnabled(w);
    var p := w.pass.value;
    SameNeeds(w, next, p.secret);
    if IsOvertaken(w, p) {
      var key :| key in p.joined && key in w.refs && Names(key, w.refs[key], key.kind, p.secret);
      assert NeededByKind(w, key.kind, p.secret);
    }
    if Needed(w, p.secret) {
      var kind :| kind in w.kinds && NeededByKind(w, kind, p.secret);
      var key :| key in w.refs && Names(key, w.refs[key], kind, p.secret);
      assert key in p.joined;
    }
  }

  lemma JoinedAreEnabled(w: World)
    requires Reachable(w) && w.pass.Some?
    ensures forall key | key in w.pass.value.joined :: key.kind in w.kinds
  {
    var start, actions :| Initial(start) && Run(start, actions) == Some(w);
    RunJoinsEnabled(start, actions, w);
  }

  lemma {:induction false} RunJoinsEnabled(w: World, actions: seq<Action>, end: World)
    requires Run(w, actions) == Some(end)
    requires w.pass.Some? ==> forall key | key in w.pass.value.joined :: key.kind in w.kinds
    ensures end.pass.Some? ==> forall key | key in end.pass.value.joined :: key.kind in end.kinds
    decreases |actions|
  {
    if actions != [] {
      RunJoinsEnabled(Next(w, actions[0]).value, actions[1..], end);
    }
  }

  /** In particular, without an object that joins late the finalizer goes only when no enabled object names the
      Secret. */
  lemma ReleasedOnlyWhenUnneeded(w: World, fate: Fate, next: World)
    requires Reachable(w) && Next(w, Release(fate)) == Some(next) && w.pass.value.joined == {}
    ensures !Needed(next, w.pass.value.secret)
  {
    ReleasedEarlyExactlyIfOvertaken(w, fate, next);
  }

  /** Exactly the finalizer of the listed Secret is at stake; every other Secret keeps its protection. */
  lemma OnlyReleaseUnprotects(w: World, a: Action, next: World, secret: SecretKey)
    requires Next(w, a) == Some(next)
    requires secret in w.secrets && w.secrets[secret].protected
    requires !(secret in next.secrets && next.secrets[secret].protected)
    ensures a.Release? && w.pass.value.secret == secret && w.pass.value.remaining == []
  {
  }

  /** Nothing protects a pass against that: in every reachable state in which all kinds are listed, any object of an
      enabled kind in the namespace can come to name the Secret, and the pass takes the protection of a Secret that is
      needed. */
  lemma AnyObjectCanOvertake(w: World, key: ObjectKey) returns (end: World)
    requires Reachable(w) && w.pass.Some? && w.pass.value.remaining == [] && w.pass.value.secret.name != ""
    requires key.kind in w.kinds && key.namespace == w.pass.value.secret.namespace
    ensures var secret := w.pass.value.secret;
            && Run(w, [PutObject(key, Some(secret.name)), Release(Acknowledged)]) == Some(end)
            && Needed(end, secret) && (secret !in end.secrets || !end.secrets[secret].protected)
  {
    var secret := w.pass.value.secret;
    var named := Next(w, PutObject(key, Some(secret.name))).value;
    end := Next(named, Release(Acknowledged)).value;
    RunOneMore(w, [], w, PutObject(key, Some(secret.name)), named);
    RunOneMore(w, [PutObject(key, Some(secret.name))], named, Release(Acknowledged), end);
    assert [PutObject(key, Some(secret.name))] + [Release(Acknowledged)] ==
           [PutObject(key, Some(secret.name)), Release(Acknowledged)];
    assert Names(key, end.refs[key], key.kind, secret);
    assert NeededByKind(end, key.kind, secret);
  }

  /** For every object and every Secret in its namespace, a state is reached in which the pass over the Secret has
      listed all kinds. */
  lemma ListedStateIsReached(key: ObjectKey, secret: SecretKey)
    returns (start: World, actions: seq<Action>, listed: World)
    requires secret.name != "" && key.namespace == secret.namespace
    ensures Initial(start) && Run(start, actions) == Some(listed)
    ensures listed == World(map[secret := SecretState(true, true)], map[], [key.kind], {}, Some(Pass(secret, [], {})))
  {
    start := World(map[], map[], [key.kind], {}, None);
    var dequeued;
    actions, dequeued := DequeuedStateIsReached(start, secret);
    listed := dequeued.(pass := Some(Pass(secret, [], {})));
    assert !NeededByKind(dequeued, key.kind, secret) && [key.kind][1..] == [];
    RunOneMore(start, actions, dequeued, ListKind(false), listed);
    actions := actions + [ListKind(false)];
  }

  lemma DequeuedStateIsReached(start: World, secret: SecretKey) returns (actions: seq<Action>, end: World)
    requires Initial(start) && secret.name != ""
    ensures Run(start, actions) == Some(end)
    ensures end == start.(secrets := map[secret := SecretState(true, true)],
                          pass := Some(Pass(secret, start.kinds, {})))
  {
    var created := Next(start, CreateSecret(secret)).value;
    var protected := Next(created, Protect(secret)).value;
    assert protected.queue == {} && protected.secrets == map[secret := SecretState(false, true)];
    var deleted := Next(protected, DeleteSecret(secret)).value;
    assert deleted.queue == {secret} && deleted.secrets == map[secret := SecretState(true, true)];
    end := Next(deleted, Dequeue(secret, false)).value;
    assert end.queue == start.queue;
    actions := [];
    RunOneMore(start, actions, start, CreateSecret(secret), created);
    actions := actions + [CreateSecret(secret)];
    RunOneMore(start, actions, created, Protect(secret), protected);
    actions := actions + [Protect(secret)];
    RunOneMore(start, actions, protected, DeleteSecret(secret), deleted);
    actions := actions + [DeleteSecret(secret)];
    RunOneMore(start, actions, deleted, Dequeue(secret, false), end);
    actions := actions + [Dequeue(secret, false)];
  }

  /** So for every object and every Secret in its namespace there is a run in which the pass removes the Secret
      although the object names it. */
  lemma OvertakenPassReleasesTooEarly(key: ObjectKey, secret: SecretKey)
    returns (start: World, actions: seq<Action>, w: World, next: World)
    requires secret.name != "" && key.namespace == secret.namespace
    ensures Initial(start) && Run(start, actions) == Some(w) && Next(w, Release(Acknowledged)) == Some(next)
    ensures w.pass.Some? && w.pass.value.secret == secret
    ensures Needed(w, secret) && secret in w.secrets && w.secrets[secret].protected && secret !in next.secrets
  {
    var listed;
    start, actions, listed := ListedStateIsReached(key, secret);
    w := Next(listed, PutObject(key, Some(secret.name))).value;
    RunOneMore(start, actions, listed, PutObject(key, Some(secret.name)), w);
    actions := actions + [PutObject(key, Some(secret.name))];
    assert Names(key, w.refs[key], key.kind, secret);
    assert NeededByKind(w, key.kind, secret);
    next := Next(w, Release(Acknowledged)).value;
  }
}
