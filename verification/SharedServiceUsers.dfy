/** ServiceUser resources that manage the same user at Aiven, and their deletion.

    A deletion pass looks for another resource that manages the user, then deletes the user at Aiven or
    leaves it alone, then takes its finalizer off; other passes and deletions run in between. All
    resources have the default deletion policy and valid tokens. */
module SharedServiceUsers {
  import opened Base

  const BUILT_IN_USER := "avnadmin"

  datatype Key = Key(namespace: string, name: string)

  datatype RemoteUser = RemoteUser(project: string, service: string, username: string)

  /** How far a deletion pass has got. The set is history: the resources for the same user that were created after
      the pass had looked for one. */
  datatype Step = NoPass | Deleting(joined: set<Key>) | Skipping | Done

  datatype ServiceUser = ServiceUser(user: RemoteUser, finalizer: bool, deleting: bool, step: Step)

  datatype World = World(
    objects: map<Key, ServiceUser>,
    remote: set<RemoteUser>,
    // History: the users that a pass left to others although none of them would ever delete it, and
    // for which since then no resource has got its finalizer and no such pass has started over.
    forsaken: set<RemoteUser>)

  datatype Action =
    | CreateObject(key: Key, user: RemoteUser)
    | MarkDeleted(key: Key)
    | LivePass(key: Key, makesUser: bool)
    | Check(key: Key)
    | RemoteDelete(key: Key, fate: Fate)
    | Release(key: Key, fate: Fate)
    | Die(key: Key)

  predicate IsBuiltIn(user: RemoteUser) {
    user.username == BUILT_IN_USER
  }

  /** What findDuplicate looks for. */
  predicate IsDuplicate(objects: map<Key, ServiceUser>, key: Key, other: Key) {
    && other in objects && key in objects && other != key
    && !objects[other].deleting && objects[other].user == objects[key].user
  }

  predicate HasDuplicate(objects: map<Key, ServiceUser>, key: Key) {
    exists other | other in objects :: IsDuplicate(objects, key, other)
  }

  /** Another resource that nobody has asked to delete names the same user of the same service. */
  lemma DuplicateExactly(objects: map<Key, ServiceUser>, key: Key)
    requires key in objects
    ensures HasDuplicate(objects, key) <==>
            exists other | other in objects && other != key && !objects[other].deleting ::
              objects[other].user == objects[key].user
  {
    if exists other | other in objects && other != key && !objects[other].deleting ::
         objects[other].user == objects[key].user
    {
      var other :|
        && other in objects && other != key && !objects[other].deleting
        && objects[other].user == objects[key].user;
      assert IsDuplicate(objects, key, other);
    }
  }

  predicate HasProtectedDuplicate(objects: map<Key, ServiceUser>, key: Key) {
    exists other | other in objects :: IsDuplicate(objects, key, other) && objects[other].finalizer
  }

  function WithStep(w: World, key: Key, step: Step): World
    requires key in w.objects
  {
    w.(objects := w.objects[key := w.objects[key].(step := step)])
  }

  /** Passes that are about to delete this user learn, for the record, that it has gained a resource. */
  function Joined(objects: map<Key, ServiceUser>, user: RemoteUser, newcomer: Key): map<Key, ServiceUser> {
    map key | key in objects ::
      if objects[key].user == user && objects[key].step.Deleting?
      then objects[key].(step := Deleting(objects[key].step.joined + {newcomer}))
      else objects[key]
  }

  /** The resource will delete the user at Aiven, or find somebody else who will. */
  predicate Answers(objects: map<Key, ServiceUser>, key: Key, user: RemoteUser) {
    && key in objects && objects[key].user == user && objects[key].finalizer
    && (objects[key].step.NoPass? || objects[key].step.Deleting?)
  }

  /** Nobody but this resource answers for its user, which exists. */
  predicate AnswersAlone(w: World, key: Key)
    requires key in w.objects
  {
    && w.objects[key].user in w.remote
    && forall other | other in w.objects && other != key :: !Answers(w.objects, other, w.objects[key].user)
  }

  function Next(w: World, a: Action): Option<World> {
    match a
    case CreateObject(key, user) =>
      if key in w.objects then None
      else Some(w.(objects := Joined(w.objects, user, key)[key := ServiceUser(user, false, false, NoPass)]))
    case MarkDeleted(key) =>
      if key !in w.objects then None
      else if !w.objects[key].finalizer then Some(w.(objects := w.objects - {key}))
      else Some(w.(objects := w.objects[key := w.objects[key].(deleting := true)]))
    case LivePass(key, makesUser) =>
      if key !in w.objects || w.objects[key].deleting then None
      else
        var user := w.objects[key].user;
        Some(w.(objects := w.objects[key := w.objects[key].(finalizer := true)],
                remote := if makesUser then w.remote + {user} else w.remote,
                forsaken := w.forsaken - {user}))
    case Check(key) =>
      if key !in w.objects || !w.objects[key].deleting || !w.objects[key].finalizer || !w.objects[key].step.NoPass?
      then None
      else if IsBuiltIn(w.objects[key].user) then Some(WithStep(w, key, Done))
      else if HasDuplicate(w.objects, key) then
        Some(WithStep(w, key, Skipping).(
               forsaken := if AnswersAlone(w, key) then w.forsaken + {w.objects[key].user} else w.forsaken))
      else Some(WithStep(w, key, Deleting({})))
    case RemoteDelete(key, fate) =>
      if key !in w.objects || !w.objects[key].step.Deleting? then None
      else
        var remote := if fate.Applied() then w.remote - {w.objects[key].user} else w.remote;
        Some(WithStep(w, key, if fate.Acknowledged? then Done else NoPass).(remote := remote))
    case Release(key, fate) =>
      if key !in w.objects || !(w.objects[key].step.Skipping? || w.objects[key].step.Done?) then None
      else if fate.Applied() then Some(w.(objects := w.objects - {key}))
      else Some(WithStep(w, key, NoPass).(forsaken := w.forsaken - {w.objects[key].user}))
    case Die(key) =>
      if key !in w.objects then None
      else if !w.objects[key].finalizer then Some(w)
      else Some(WithStep(w, key, NoPass).(forsaken := w.forsaken - {w.objects[key].user}))
  }

  function Run(w: World, actions: seq<Action>): Option<World>
    decreases |actions|
  {
    if actions == [] then Some(w)
    else
      match Next(w, actions[0])
      case None => None
      case Some(next) => Run(next, actions[1..])
  }

  const NOTHING := World(map[], {}, {})

  ghost predicate Reachable(w: World) {
    exists actions :: Run(NOTHING, actions) == Some(w)
  }

  lemma {:induction false} RunAppend(w: World, first: seq<Action>, second: seq<Action>)
    ensures Run(w, first + second) == match Run(w, first) { case None => None case Some(mid) => Run(mid, second) }
    decreases |first|
  {
    if first == [] {
      assert first + second == second;
    } else {
      assert (first + second)[1..] == first[1..] + second;
      match Next(w, first[0]) {
        case None =>
        case Some(next) => RunAppend(next, first[1..], second);
      }
    }
  }

  lemma RunOneMore(start: World, actions: seq<Action>, here: World, a: Action, next: World)
    requires Run(start, actions) == Some(here) && Next(here, a) == Some(next)
    ensures Run(start, actions + [a]) == Some(next)
  {
    RunAppend(start, actions, [a]);
    assert Run(here, [a]) == Some(next);
  }

  // ---------------------------------------------------------------- the invariant

  ghost predicate ObjectInv(o: ServiceUser) {
    && (!o.step.NoPass? ==> o.deleting)
    && (o.deleting ==> o.finalizer)
    && (o.step.Deleting? ==> !IsBuiltIn(o.user))
  }

  /** A resource that manages the user and that nobody has asked to delete. */
  predicate IsKeeper(objects: map<Key, ServiceUser>, key: Key, user: RemoteUser) {
    key in objects && objects[key].user == user && !objects[key].deleting
  }

  ghost predicate KeepersJoined(objects: map<Key, ServiceUser>, user: RemoteUser, joined: set<Key>) {
    forall key | IsKeeper(objects, key, user) :: key in joined
  }

  ghost predicate Inv(w: World) {
    && (forall key | key in w.objects :: ObjectInv(w.objects[key]))
    && (forall key | key in w.objects && w.objects[key].step.Deleting? ::
          KeepersJoined(w.objects, w.objects[key].user, w.objects[key].step.joined))
    && (forall user | !IsBuiltIn(user) :: user in w.forsaken <==> IsForsaken(w, user))
  }

  /** The user exists and nobody answers for it. */
  ghost predicate IsForsaken(w: World, user: RemoteUser) {
    user in w.remote && !exists key :: Answers(w.objects, key, user)
  }

  /** Somebody who answers goes on answering, unless the pass skips or finishes. */
  lemma AnswersStay(w: World, a: Action, next: World, key: Key, user: RemoteUser)
    requires Inv(w) && Next(w, a) == Some(next) && Answers(w.objects, key, user)
    requires !(a.Check? && a.key == key) && !(a.RemoteDelete? && a.key == key && a.fate.Acknowledged?)
    ensures Answers(next.objects, key, user)
  {
    assert ObjectInv(w.objects[key]);
  }

  /** Nobody starts to answer but by a first live pass or by starting over. */
  lemma AnswersAreOld(w: World, a: Action, next: World, key: Key, user: RemoteUser)
    requires Inv(w) && Next(w, a) == Some(next) && Answers(next.objects, key, user)
    requires !((a.LivePass? || a.Release? || a.Die?) && a.key == key)
    ensures Answers(w.objects, key, user)
  {
  }

  lemma CheckKeepsForsaken(w: World, key: Key, next: World, user: RemoteUser)
    requires Inv(w) && Next(w, Check(key)) == Some(next) && !IsBuiltIn(user)
    ensures user in next.forsaken <==> IsForsaken(next, user)
  {
    forall other | Answers(next.objects, other, user)
      ensures Answers(w.objects, other, user)
    {
      AnswersAreOld(w, Check(key), next, other, user);
    }
    forall other | Answers(w.objects, other, user) && other != key
      ensures Answers(next.objects, other, user)
    {
      AnswersStay(w, Check(key), next, other, user);
    }
    assert user == w.objects[key].user ==> Answers(w.objects, key, user);
    assert next.objects[key].step.Deleting? && user == w.objects[key].user ==> Answers(next.objects, key, user);
  }

  lemma StartKeepsForsaken(w: World, a: Action, next: World, user: RemoteUser)
    requires Inv(w) && Next(w, a) == Some(next) && !IsBuiltIn(user) && (a.LivePass? || a.Release? || a.Die?)
    ensures user in next.forsaken <==> IsForsaken(next, user)
  {
    assert ObjectInv(w.objects[a.key]);
    if user == w.objects[a.key].user && a.key in next.objects && next.objects[a.key].finalizer {
      assert Answers(next.objects, a.key, user);
    } else {
      forall other
        ensures Answers(w.objects, other, user) <==> Answers(next.objects, other, user)
      {
      }
    }
  }

  lemma RemoteDeleteKeepsForsaken(w: World, key: Key, fate: Fate, next: World, user: RemoteUser)
    requires Inv(w) && Next(w, RemoteDelete(key, fate)) == Some(next) && !IsBuiltIn(user)
    ensures user in next.forsaken <==> IsForsaken(next, user)
  {
    assert ObjectInv(w.objects[key]);
    assert Answers(w.objects, key, w.objects[key].user);
    if user == w.objects[key].user {
      assert !fate.Acknowledged? ==> Answers(next.objects, key, user);
    } else {
      forall other
        ensures Answers(w.objects, other, user) <==> Answers(next.objects, other, user)
      {
      }
    }
  }

  lemma NextKeepsForsaken(w: World, a: Action, next: World, user: RemoteUser)
    requires Inv(w) && Next(w, a) == Some(next) && !IsBuiltIn(user)
    ensures user in next.forsaken <==> IsForsaken(next, user)
  {
    if a.Check? {
      CheckKeepsForsaken(w, a.key, next, user);
    } else if a.LivePass? || a.Release? || a.Die? {
      StartKeepsForsaken(w, a, next, user);
    } else if a.RemoteDelete? {
      RemoteDeleteKeepsForsaken(w, a.key, a.fate, next, user);
    } else {
      forall key
        ensures Answers(w.objects, key, user) <==> Answers(next.objects, key, user)
      {
        if Answers(w.objects, key, user) {
          AnswersStay(w, a, next, key, user);
        }
        if Answers(next.objects, key, user) {
          AnswersAreOld(w, a, next, key, user);
        }
      }
    }
  }

  lemma NextKeepsObjects(w: World, a: Action, next: World, key: Key)
    requires Inv(w) && Next(w, a) == Some(next) && key in next.objects
    ensures ObjectInv(next.objects[key])
  {
    if key in w.objects {
      assert ObjectInv(w.objects[key]);
    }
  }

  lemma KeepersAreOldOrNew(w: World, a: Action, next: World, key: Key, user: RemoteUser)
    requires Next(w, a) == Some(next) && IsKeeper(next.objects, key, user)
    ensures IsKeeper(w.objects, key, user) || a == CreateObject(key, user)
  {
  }

  /** The pass over key has just looked for others, or it was about to delete before and has noted newcomers. */
  predicate DeletesOn(w: World, a: Action, next: World, key: Key)
    requires key in next.objects && next.objects[key].step.Deleting?
  {
    var o := next.objects[key];
    || (a == Check(key) && o.step.joined == {} && key in w.objects && w.objects[key].user == o.user &&
        w.objects[key].deleting && !HasDuplicate(w.objects, key))
    || (key in w.objects && w.objects[key].user == o.user && w.objects[key].step.Deleting? &&
        o.step.joined == w.objects[key].step.joined + (if a.CreateObject? && a.user == o.user then {a.key} else {}))
  }

  lemma DeletingIsOldOrChecked(w: World, a: Action, next: World, key: Key)
    requires Next(w, a) == Some(next) && key in next.objects && next.objects[key].step.Deleting?
    ensures DeletesOn(w, a, next, key)
  {
  }

  lemma NextKeepsJoined(w: World, a: Action, next: World, key: Key)
    requires Inv(w) && Next(w, a) == Some(next) && key in next.objects && next.objects[key].step.Deleting?
    ensures KeepersJoined(next.objects, next.objects[key].user, next.objects[key].step.joined)
  {
    var user, joined := next.objects[key].user, next.objects[key].step.joined;
    DeletingIsOldOrChecked(w, a, next, key);
    assert KeepersJoined(w.objects, user, joined - (if a.CreateObject? && a.user == user then {a.key} else {})) by {
      if a == Check(key) {
        NoDuplicateNoKeeper(w.objects, key);
      } else {
        assert KeepersJoined(w.objects, user, w.objects[key].step.joined);
        OldKeepersJoined(w, a, user, w.objects[key].step.joined);
      }
    }
    forall other | IsKeeper(next.objects, other, user)
      ensures other in joined
    {
      KeepersAreOldOrNew(w, a, next, other, user);
    }
  }

  /** A new resource does not manage anything yet when it is created. */
  lemma OldKeepersJoined(w: World, a: Action, user: RemoteUser, joined: set<Key>)
    requires Next(w, a).Some? && KeepersJoined(w.objects, user, joined)
    ensures KeepersJoined(w.objects, user, joined - (if a.CreateObject? && a.user == user then {a.key} else {}))
  {
  }

  lemma NoDuplicateNoKeeper(objects: map<Key, ServiceUser>, key: Key)
    requires key in objects && objects[key].deleting && !HasDuplicate(objects, key)
    ensures KeepersJoined(objects, objects[key].user, {})
  {
    forall other
      ensures !IsKeeper(objects, other, objects[key].user)
    {
      assert !IsDuplicate(objects, key, other);
    }
  }

  lemma NextKeepsInv(w: World, a: Action, next: World)
    requires Inv(w) && Next(w, a) == Some(next)
    ensures Inv(next)
  {
    forall key | key in next.objects
      ensures ObjectInv(next.objects[key])
    {
      NextKeepsObjects(w, a, next, key);
    }
    forall key | key in next.objects && next.objects[key].step.Deleting?
      ensures KeepersJoined(next.objects, next.objects[key].user, next.objects[key].step.joined)
    {
      NextKeepsJoined(w, a, next, key);
    }
    forall user | !IsBuiltIn(user)
      ensures user in next.forsaken <==> IsForsaken(next, user)
    {
      NextKeepsForsaken(w, a, next, user);
    }
  }

  lemma {:induction false} RunKeepsInv(w: World, actions: seq<Action>, end: World)
    requires Inv(w) && Run(w, actions) == Some(end)
    ensures Inv(end)
    decreases |actions|
  {
    if actions != [] {
      var next := Next(w, actions[0]).value;
      NextKeepsInv(w, actions[0], next);
      RunKeepsInv(next, actions[1..], end);
    }
  }

  lemma ReachableInv(w: World)
    requires Reachable(w)
    ensures Inv(w)
  {
    var actions :| Run(NOTHING, actions) == Some(w);
    RunKeepsInv(NOTHING, actions, w);
  }

  // ---------------------------------------------------------------- what is promised

  /** A resource of this user was created after the pass had looked for one, and nobody has asked to delete it. */
  predicate IsOvertaken(w: World, key: Key)
    requires key in w.objects && w.objects[key].step.Deleting?
  {
    exists other | other in w.objects[key].step.joined :: IsKeeper(w.objects, other, w.objects[key].user)
  }

  /** Only the deletion pass of one of its resources takes a user away at Aiven. It takes it away from a resource that
      still manages it exactly if it was overtaken. */
  lemma NoUserTakenAway(w: World, a: Action, next: World, user: RemoteUser)
    requires Reachable(w) && Next(w, a) == Some(next)
    requires user in w.remote && user !in next.remote
    ensures a.RemoteDelete? && w.objects[a.key].user == user && !IsBuiltIn(user)
    ensures (exists key :: IsKeeper(next.objects, key, user)) <==> IsOvertaken(w, a.key)
  {
    ReachableInv(w);
    assert ObjectInv(w.objects[a.key]);
    assert KeepersJoined(w.objects, user, w.objects[a.key].step.joined);
    forall key
      ensures IsKeeper(next.objects, key, user) <==> IsKeeper(w.objects, key, user)
    {
    }
  }

  /** Nothing prevents that: in every state with a pass that is about to delete the user, a resource of any new name
      can come to manage it, have its live pass and lose it. */
  lemma AnyResourceCanOvertake(w: World, key: Key, newcomer: Key) returns (end: World)
    requires key in w.objects && w.objects[key].step.Deleting? && newcomer !in w.objects
    ensures var user := w.objects[key].user;
            && Run(w, [CreateObject(newcomer, user), LivePass(newcomer, true), RemoteDelete(key, Acknowledged)])
               == Some(end)
            && IsKeeper(end.objects, newcomer, user) && user !in end.remote
  {
    var user := w.objects[key].user;
    var create, live, delete := CreateObject(newcomer, user), LivePass(newcomer, true), RemoteDelete(key, Acknowledged);
    var created := Next(w, create).value;
    var lives := Next(created, live).value;
    end := Next(lives, delete).value;
    RunOneMore(w, [], w, create, created);
    RunOneMore(w, [create], created, live, lives);
    RunOneMore(w, [create] + [live], lives, delete, end);
    assert [create] + [live] + [delete] == [create, live, delete];
  }

  /** One resource has created its user. */
  lemma LiveIsReached(user: RemoteUser, a: Key) returns (actions: seq<Action>, end: World)
    ensures Run(NOTHING, actions) == Some(end) && |actions| == 2
    ensures end == World(map[a := ServiceUser(user, true, false, NoPass)], {user}, {})
  {
    var made := Next(NOTHING, CreateObject(a, user)).value;
    assert made.objects == map[a := ServiceUser(user, false, false, NoPass)];
    end := Next(made, LivePass(a, true)).value;
    RunOneMore(NOTHING, [], NOTHING, CreateObject(a, user), made);
    RunOneMore(NOTHING, [CreateObject(a, user)], made, LivePass(a, true), end);
    actions := [CreateObject(a, user)] + [LivePass(a, true)];
  }

  /** And such a state is reached, for every user and every two names. */
  lemma OvertakenDeletionIsReached(user: RemoteUser, a: Key, b: Key) returns (actions: seq<Action>, end: World)
    requires a != b && !IsBuiltIn(user)
    ensures Run(NOTHING, actions) == Some(end) && IsKeeper(end.objects, b, user) && user !in end.remote
    ensures |actions| == 7 && actions[5] == LivePass(b, true) && actions[6] == RemoteDelete(a, Acknowledged)
  {
    var live;
    actions, live := LiveIsReached(user, a);
    var marked := Next(live, MarkDeleted(a)).value;
    assert !HasDuplicate(marked.objects, a);
    var checked := Next(marked, Check(a)).value;
    RunOneMore(NOTHING, actions, live, MarkDeleted(a), marked);
    actions := actions + [MarkDeleted(a)];
    RunOneMore(NOTHING, actions, marked, Check(a), checked);
    actions := actions + [Check(a)];
    end := AnyResourceCanOvertake(checked, a, b);
    var rest := [CreateObject(b, user), LivePass(b, true), RemoteDelete(a, Acknowledged)];
    RunAppend(NOTHING, actions, rest);
    actions := actions + rest;
  }

  ghost predicate NobodyJoined(w: World) {
    forall key | key in w.objects :: w.objects[key].step.Deleting? ==> w.objects[key].step.joined == {}
  }

  lemma NobodyJoins(w: World, a: Action, next: World)
    requires NobodyJoined(w) && Next(w, a) == Some(next) && !a.CreateObject?
    ensures NobodyJoined(next)
  {
    forall key | key in next.objects && next.objects[key].step.Deleting?
      ensures next.objects[key].step.joined == {}
    {
      DeletingIsOldOrChecked(w, a, next, key);
    }
  }

  lemma StepSparesSharedUsers(w: World, a: Action, next: World, keeper: Key, user: RemoteUser)
    requires Inv(w) && NobodyJoined(w) && Next(w, a) == Some(next) && !a.CreateObject?
    requires IsKeeper(next.objects, keeper, user)
    ensures IsKeeper(w.objects, keeper, user) && (user in w.remote ==> user in next.remote)
  {
    KeepersAreOldOrNew(w, a, next, keeper, user);
    if a.RemoteDelete? {
      assert KeepersJoined(w.objects, w.objects[a.key].user, w.objects[a.key].step.joined);
    }
  }

  /** Passes, deletions, failures and crashes in any order, nothing created: a user survives as long as one
      of its resources is not being deleted. */
  lemma {:induction false} DeletionsSpareSharedUsers(
    w: World, actions: seq<Action>, end: World, keeper: Key, user: RemoteUser)
    requires Inv(w) && NobodyJoined(w) && Run(w, actions) == Some(end)
    requires forall a | a in actions :: !a.CreateObject?
    requires IsKeeper(end.objects, keeper, user)
    ensures IsKeeper(w.objects, keeper, user) && (user in w.remote ==> user in end.remote)
    decreases |actions|
  {
    if actions != [] {
      var next := Next(w, actions[0]).value;
      assert actions[0] in actions;
      NextKeepsInv(w, actions[0], next);
      NobodyJoins(w, actions[0], next);
      DeletionsSpareSharedUsers(next, actions[1..], end, keeper, user);
      StepSparesSharedUsers(w, actions[0], next, keeper, user);
    }
  }

  /** Once all resources of a user are gone, the user is gone, except exactly if a pass left it to others none of
      which would ever delete it, and no resource has answered for it since. */
  lemma LastOneRemovesTheUser(w: World, user: RemoteUser)
    requires Reachable(w) && !IsBuiltIn(user)
    requires forall key | key in w.objects :: w.objects[key].user != user
    ensures user in w.remote <==> user in w.forsaken
  {
    ReachableInv(w);
  }

  /** A user is forsaken only by a pass that skips it for a duplicate, when no duplicate has its finalizer yet. */
  lemma ForsakenForUnprotectedDuplicates(w: World, a: Action, next: World, user: RemoteUser)
    requires Reachable(w) && Next(w, a) == Some(next) && user in next.forsaken && user !in w.forsaken
    ensures a.Check? && w.objects[a.key].user == user && HasDuplicate(w.objects, a.key)
    ensures !HasProtectedDuplicate(w.objects, a.key)
  {
    ReachableInv(w);
    forall other | other in w.objects && IsDuplicate(w.objects, a.key, other)
      ensures !w.objects[other].finalizer
    {
      assert ObjectInv(w.objects[other]);
      assert !Answers(w.objects, other, user);
    }
  }

  /** Undisturbed, a resource that nobody shares takes its user along. */
  lemma UnsharedDeletionCompletes(w: World, key: Key) returns (end: World)
    requires key in w.objects && w.objects[key].deleting && w.objects[key].finalizer && w.objects[key].step.NoPass?
    requires !IsBuiltIn(w.objects[key].user) && !HasDuplicate(w.objects, key)
    ensures Run(w, [Check(key), RemoteDelete(key, Acknowledged), Release(key, Acknowledged)]) == Some(end)
    ensures key !in end.objects && w.objects[key].user !in end.remote
  {
    var mid := Next(w, Check(key)).value;
    var late := Next(mid, RemoteDelete(key, Acknowledged)).value;
    end := Next(late, Release(key, Acknowledged)).value;
    RunOneMore(w, [], w, Check(key), mid);
    RunOneMore(w, [Check(key)], mid, RemoteDelete(key, Acknowledged), late);
    RunOneMore(w, [Check(key), RemoteDelete(key, Acknowledged)], late, Release(key, Acknowledged), end);
    assert [Check(key), RemoteDelete(key, Acknowledged)] + [Release(key, Acknowledged)] ==
           [Check(key), RemoteDelete(key, Acknowledged), Release(key, Acknowledged)];
    assert [Check(key)] + [RemoteDelete(key, Acknowledged)] == [Check(key), RemoteDelete(key, Acknowledged)];
  }

  // ---------------------------------------------------------------- what is not promised

  lemma DeleteUnprotected(w: World, keys: set<Key>) returns (actions: seq<Action>)
    requires forall key | key in keys :: key in w.objects && !w.objects[key].finalizer
    ensures Run(w, actions) == Some(w.(objects := w.objects - keys))
    decreases keys
  {
    if keys == {} {
      actions := [];
      assert w.objects - keys == w.objects;
    } else {
      var key :| key in keys;
      var next := Next(w, MarkDeleted(key)).value;
      var rest := DeleteUnprotected(next, keys - {key});
      assert w.objects - {key} - (keys - {key}) == w.objects - keys;
      actions := [MarkDeleted(key)] + rest;
      assert actions[1..] == rest;
    }
  }

  /** A duplicate without its finalizer does not count: it can disappear without a deletion pass. Whenever all
      duplicates are like that, deletions alone lead to a state in which the user is left over at Aiven. */
  lemma UnprotectedDuplicatesLeak(w: World, key: Key) returns (actions: seq<Action>, end: World)
    requires Inv(w) && key in w.objects && w.objects[key].deleting && w.objects[key].step.NoPass?
    requires !IsBuiltIn(w.objects[key].user) && w.objects[key].user in w.remote
    requires HasDuplicate(w.objects, key) && !HasProtectedDuplicate(w.objects, key)
    requires forall other | other in w.objects && other != key && w.objects[other].user == w.objects[key].user ::
               !w.objects[other].deleting
    ensures Run(w, actions) == Some(end)
    ensures w.objects[key].user in end.remote
    ensures forall other | other in end.objects :: end.objects[other].user != w.objects[key].user
  {
    var user := w.objects[key].user;
    assert ObjectInv(w.objects[key]);
    var mid := Next(w, Check(key)).value;
    var late := Next(mid, Release(key, Acknowledged)).value;
    RunOneMore(w, [], w, Check(key), mid);
    RunOneMore(w, [Check(key)], mid, Release(key, Acknowledged), late);
    var others := set other | other in late.objects && late.objects[other].user == user;
    forall other | other in others
      ensures !late.objects[other].finalizer
    {
      assert IsDuplicate(w.objects, key, other);
    }
    var rest := DeleteUnprotected(late, others);
    end := late.(objects := late.objects - others);
    actions := [Check(key)] + [Release(key, Acknowledged)] + rest;
    RunAppend(w, [Check(key)] + [Release(key, Acknowledged)], rest);
  }

  /** Such a state is reached, and the user is left over: one resource creates it, another one joins, the first is
      deleted and leaves the user to the second, and the second is deleted before its first pass. */
  lemma LeakIsReached(user: RemoteUser, a: Key, b: Key) returns (actions: seq<Action>, end: World)
    requires a != b && !IsBuiltIn(user)
    ensures Run(NOTHING, actions) == Some(end) && end.objects == map[] && user in end.remote
  {
    var live;
    actions, live := LiveIsReached(user, a);
    var shared := Next(live, CreateObject(b, user)).value;
    var marked := Next(shared, MarkDeleted(a)).value;
    assert IsDuplicate(marked.objects, a, b);
    var skipped := Next(marked, Check(a)).value;
    var released := Next(skipped, Release(a, Acknowledged)).value;
    end := Next(released, MarkDeleted(b)).value;
    assert end.objects == map[];
    RunOneMore(NOTHING, actions, live, CreateObject(b, user), shared);
    actions := actions + [CreateObject(b, user)];
    RunOneMore(NOTHING, actions, shared, MarkDeleted(a), marked);
    actions := actions + [MarkDeleted(a)];
    RunOneMore(NOTHING, actions, marked, Check(a), skipped);
    actions := actions + [Check(a)];
    RunOneMore(NOTHING, actions, skipped, Release(a, Acknowledged), released);
    actions := actions + [Release(a, Acknowledged)];
    RunOneMore(NOTHING, actions, released, MarkDeleted(b), end);
    actions := actions + [MarkDeleted(b)];
  }
}
