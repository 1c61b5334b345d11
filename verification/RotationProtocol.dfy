/** The two-user credential rotation as a state machine.

    The connection Secret is a write-ahead log of one entry: a pending pair is saved in it,
    the password is reset at Aiven, and one more write publishes the pair and clears the
    entry. Any effect may fail, may take effect although it reports a failure, or may be the
    last thing the process does; reads come from a cache that may be arbitrarily old. */
module RotationProtocol {
  import opened Base

  const HOUR_IN_NANOSECONDS: int := 3_600_000_000_000

  /** The content of the publication time key. A time of 0 is Go's zero time. */
  datatype Stamp = NeverStamped | Unparsable | StampedAt(time: int)

  /** Everything in the Secret that the rotation state does not depend on. */
  datatype Details = Details(
    rest: map<string, string>,
    labels: map<string, string>,
    annotations: map<string, string>)

  datatype SecretData = SecretData(
    username: Option<string>,
    password: Option<string>,
    stamp: Stamp,
    pendingUser: Option<string>,
    pendingPassword: Option<string>,
    details: Details)

  datatype RotationSpec = RotationSpec(usernames: seq<string>, interval: int, target: Details)

  /** What the custom resource definition admits. */
  predicate ValidSpec(spec: RotationSpec) {
    && |spec.usernames| == 2
    && spec.usernames[0] != spec.usernames[1]
    && |spec.usernames[0]| > 0
    && |spec.usernames[1]| > 0
    && spec.interval >= HOUR_IN_NANOSECONDS
  }

  /** A missing key reads as the empty string. */
  function Value(entry: Option<string>): string {
    match entry
    case None => ""
    case Some(value) => value
  }

  function IndexOf(names: seq<string>, name: string): (index: int)
    ensures -1 <= index < |names|
    ensures index >= 0 ==> names[index] == name && name !in names[..index]
    ensures index < 0 <==> name !in names
  {
    if names == [] then -1
    else if names[0] == name then 0
    else
      var rest := IndexOf(names[1..], name);
      if rest < 0 then -1 else rest + 1
  }

  function NextUsername(spec: RotationSpec, current: string): string
    requires |spec.usernames| > 0
  {
    spec.usernames[(IndexOf(spec.usernames, current) + 1) % |spec.usernames|]
  }

  function TimeOf(stamp: Stamp): int {
    match stamp
    case NeverStamped => 0
    case Unparsable => 0
    case StampedAt(time) => time
  }

  predicate HasPending(spec: RotationSpec, data: SecretData) {
    Value(data.pendingUser) in spec.usernames && |Value(data.pendingPassword)| > 0
  }

  predicate Published(data: SecretData) {
    data.stamp.StampedAt? && data.stamp.time != 0
  }

  predicate Due(spec: RotationSpec, data: SecretData, now: int)
    requires !data.stamp.Unparsable?
  {
    HasPending(spec, data) || !Published(data) || data.stamp.time + spec.interval <= now
  }

  /** The local changes of a pass, in the order in which it makes them. */
  function WithPending(spec: RotationSpec, data: SecretData, candidate: string): SecretData
    requires |spec.usernames| > 0
  {
    if HasPending(spec, data) then data
    else data.(pendingUser := Some(NextUsername(spec, Value(data.username))), pendingPassword := Some(candidate))
  }

  function WithoutPending(data: SecretData): SecretData {
    data.(pendingUser := None, pendingPassword := None)
  }

  /** Refreshing the connection details writes the username back. */
  function Refreshed(data: SecretData, details: Details): SecretData {
    data.(username := Some(Value(data.username)), details := details)
  }

  function Promoted(data: SecretData, details: Details, now: int): SecretData {
    WithoutPending(Refreshed(data.(username := data.pendingUser, password := data.pendingPassword), details)
                   .(stamp := StampedAt(now)))
  }

  // ---------------------------------------------------------------- the machine

  datatype Credential = Credential(username: string, password: string)

  datatype Publication = Publication(credential: Credential, at: int)

  /** A copy of the Secret in the hands of a worker. Version 0 is the unsaved template;
      version n is the n-th state the Secret was ever in. */
  datatype Worker =
    | Idle
    | Holding(version: nat, data: SecretData)    // read, nothing decided
    | Refreshing(version: nat, data: SecretData) // no rotation is due
    | Rotating(version: nat, data: SecretData)   // carries a pending pair that is not saved by this pass
    | Saved(version: nat, data: SecretData)      // the pending pair is durable
    | PasswordSet(version: nat, data: SecretData)
    | Stamped(version: nat, data: SecretData)    // ready to publish

  datatype World = World(
    versions: seq<SecretData>,      // every state of the Secret, the current one last
    accepted: map<string, string>,  // the password Aiven accepts for each user
    clock: int,
    worker: Worker,
    // history
    sent: seq<Credential>,
    publications: seq<Publication>)

  datatype Action =
    | Tick(to: int)
    | Touch(details: Details)       // somebody edits keys the rotation does not manage
    | Plant(user: Option<string>, password: Option<string>) // somebody leaves a pending pair that is not valid
    | Read(version: nat)
    | Die                           // the pass ends early: an error return, or the process is killed
    | Decide(candidate: string, details: Details)
    | Save(fate: Fate)
    | Modify(fate: Fate)            // the password reset at Aiven
    | Stamp(details: Details)
    | Publish(fate: Fate)
    | Refresh(fate: Fate)

  function Template(target: Details): SecretData {
    SecretData(None, None, NeverStamped, None, None, target.(rest := map[]))
  }

  function ReadVersion(spec: RotationSpec, versions: seq<SecretData>, version: nat): SecretData
    requires version <= |versions|
  {
    if version == 0 then Template(spec.target) else versions[version - 1]
  }

  /** The current content; the template stands for a Secret that does not exist. */
  function Latest(spec: RotationSpec, w: World): SecretData {
    ReadVersion(spec, w.versions, |w.versions|)
  }

  /** An accepted write. One that changes nothing keeps the resource version. */
  function Append(versions: seq<SecretData>, data: SecretData): seq<SecretData> {
    if versions != [] && versions[|versions| - 1] == data then versions else versions + [data]
  }

  function Pending(data: SecretData): Credential {
    Credential(Value(data.pendingUser), Value(data.pendingPassword))
  }

  function PublicationOf(data: SecretData): Publication {
    Publication(Credential(Value(data.username), Value(data.password)), TimeOf(data.stamp))
  }

  /** One step; None when the action is not possible. */
  function Next(spec: RotationSpec, w: World, a: Action): Option<World>
    requires |spec.usernames| > 0
  {
    match a
    case Tick(to) =>
      if w.clock <= to then Some(w.(clock := to)) else None
    case Touch(details) =>
      if w.versions == [] then None
      else Some(w.(versions := Append(w.versions, Latest(spec, w).(details := details))))
    case Plant(user, password) =>
      var planted := Latest(spec, w).(pendingUser := user, pendingPassword := password);
      if w.versions == [] || HasPending(spec, Latest(spec, w)) || HasPending(spec, planted) then None
      else Some(w.(versions := Append(w.versions, planted)))
    case Read(version) =>
      if w.worker.Idle? && version <= |w.versions|
      then Some(w.(worker := Holding(version, ReadVersion(spec, w.versions, version)))) else None
    case Die =>
      Some(w.(worker := Idle))
    case Decide(candidate, details) =>
      if w.worker.Holding? && !w.worker.data.stamp.Unparsable? && |candidate| > 0 then
        var read := w.worker.data;
        var current := if Published(read) then Refreshed(read, details) else read;
        Some(w.(worker :=
          if Due(spec, read, w.clock)
          then Rotating(w.worker.version, WithPending(spec, current, candidate))
          else Refreshing(w.worker.version, WithoutPending(current))))
      else None
    case Save(fate) =>
      if w.worker.Rotating? && (fate.Applied() ==> w.worker.version == |w.versions|) then
        var versions := if fate.Applied() then Append(w.versions, w.worker.data) else w.versions;
        Some(w.(versions := versions,
                worker := if fate.Acknowledged? then Saved(|versions|, w.worker.data) else Idle))
      else None
    case Modify(fate) =>
      if w.worker.Saved? then
        var pair := Pending(w.worker.data);
        Some(w.(accepted := if fate.Applied() then w.accepted[pair.username := pair.password] else w.accepted,
                sent := w.sent + [pair],
                worker := if fate.Acknowledged? then PasswordSet(w.worker.version, w.worker.data) else Idle))
      else None
    case Stamp(details) =>
      if w.worker.PasswordSet?
      then Some(w.(worker := Stamped(w.worker.version, Promoted(w.worker.data, details, w.clock)))) else None
    case Publish(fate) =>
      if w.worker.Stamped? && (fate.Applied() ==> w.worker.version == |w.versions|) then
        var data := w.worker.data;
        Some(if fate.Applied()
             then w.(versions := Append(w.versions, data), publications := w.publications + [PublicationOf(data)],
                     worker := Idle)
             else w.(worker := Idle))
      else None
    case Refresh(fate) =>
      if w.worker.Refreshing? && (fate.Applied() ==> w.worker.version == |w.versions|)
      then
        var versions := if fate.Applied() then Append(w.versions, w.worker.data) else w.versions;
        Some(w.(versions := versions, worker := Idle))
      else None
  }

  /** Where a list of actions leads; None when one of them is not possible. */
  function Run(spec: RotationSpec, w: World, actions: seq<Action>): Option<World>
    requires |spec.usernames| > 0
    decreases |actions|
  {
    if actions == [] then Some(w)
    else
      match Next(spec, w, actions[0])
      case None => None
      case Some(next) => Run(spec, next, actions[1..])
  }

  /** Before the first pass: no Secret, and nothing known about the passwords at Aiven. */
  ghost predicate Initial(w: World) {
    w.versions == [] && w.worker.Idle? && w.sent == [] && w.publications == [] && w.clock > 0
  }

  ghost predicate Reachable(spec: RotationSpec, w: World)
    requires |spec.usernames| > 0
  {
    exists start, actions :: Initial(start) && Run(spec, start, actions) == Some(w)
  }

  lemma {:induction false} RunAppend(spec: RotationSpec, w: World, first: seq<Action>, second: seq<Action>)
    requires |spec.usernames| > 0
    ensures Run(spec, w, first + second) ==
            match Run(spec, w, first) { case None => None case Some(mid) => Run(spec, mid, second) }
    decreases |first|
  {
    if first == [] {
      assert first + second == second;
    } else {
      assert (first + second)[1..] == first[1..] + second;
      match Next(spec, w, first[0]) {
        case None =>
        case Some(next) => RunAppend(spec, next, first[1..], second);
      }
    }
  }

  lemma RunOneMore(spec: RotationSpec, start: World, actions: seq<Action>, here: World, a: Action, next: World)
    requires |spec.usernames| > 0
    requires Run(spec, start, actions) == Some(here) && Next(spec, here, a) == Some(next)
    ensures Run(spec, start, actions + [a]) == Some(next)
  {
    RunAppend(spec, start, actions, [a]);
    assert Run(spec, here, [a]) == Some(next);
  }

  // ---------------------------------------------------------------- the invariant

  predicate Accepts(w: World, c: Credential) {
    c.username in w.accepted && w.accepted[c.username] == c.password
  }

  /** What the Secret says agrees with the publications so far. */
  ghost predicate Consistent(spec: RotationSpec, data: SecretData, publications: seq<Publication>) {
    && !data.stamp.Unparsable?
    && if publications == [] then data.stamp.NeverStamped? && data.username.None?
       else
         var last := publications[|publications| - 1];
         && data.stamp == StampedAt(last.at)
         && data.username == Some(last.credential.username)
         && data.password == Some(last.credential.password)
  }

  /** The earliest time at which the next rotation may start. */
  function Deadline(spec: RotationSpec, publications: seq<Publication>): int {
    if publications == [] then 1 else publications[|publications| - 1].at + spec.interval
  }

  ghost predicate PendingIsDue(spec: RotationSpec, data: SecretData, publications: seq<Publication>, clock: int)
    requires |spec.usernames| > 0
  {
    && HasPending(spec, data)
    && data.pendingUser == Some(NextUsername(spec, Value(data.username)))
    && Deadline(spec, publications) <= clock
  }

  ghost predicate HistoryInv(spec: RotationSpec, publications: seq<Publication>)
    requires |spec.usernames| == 2
  {
    && (forall i | 0 <= i < |publications| ::
          && publications[i].credential.username == spec.usernames[i % 2]
          && publications[i].at > 0)
    && (forall i | 0 < i < |publications| :: publications[i - 1].at + spec.interval <= publications[i].at)
  }

  /** Aiven accepts the published pair, and the pair before it unless a rotation is under way. */
  ghost predicate RemoteInv(spec: RotationSpec, w: World, data: SecretData) {
    var n := |w.publications|;
    && (n >= 1 ==> Accepts(w, w.publications[n - 1].credential))
    && (n >= 2 && !HasPending(spec, data) ==> Accepts(w, w.publications[n - 2].credential))
  }

  ghost predicate SentInv(w: World) {
    forall i | 0 <= i < |w.sent| :: WasSaved(w.versions, w.sent[i])
  }

  ghost predicate WasSaved(versions: seq<SecretData>, pair: Credential) {
    exists v :: 0 <= v < |versions| && Pending(versions[v]) == pair
  }

  ghost predicate WorkerInv(spec: RotationSpec, w: World)
    requires |spec.usernames| > 0
  {
    var latest := Latest(spec, w);
    match w.worker
    case Idle => true
    case Holding(version, data) =>
      version <= |w.versions| && data == ReadVersion(spec, w.versions, version)
    case Refreshing(version, data) =>
      version <= |w.versions| &&
      (version == |w.versions| ==>
         w.publications != [] && !HasPending(spec, latest) && SameState(data, WithoutPending(latest)))
    case Rotating(version, data) =>
      version <= |w.versions| &&
      (version == |w.versions| ==>
         && PendingIsDue(spec, data, w.publications, w.clock)
         && SameState(WithoutPending(data), WithoutPending(latest))
         && (HasPending(spec, latest) ==> Pending(data) == Pending(latest)))
    case Saved(version, data) =>
      w.versions != [] && version <= |w.versions| && SameState(data, latest) && HasPending(spec, latest)
    case PasswordSet(version, data) =>
      w.versions != [] && version <= |w.versions| && SameState(data, latest) && HasPending(spec, latest) &&
          Accepts(w, Pending(data))
    case Stamped(version, data) =>
      && w.versions != [] && version <= |w.versions| && HasPending(spec, latest) && Accepts(w, Pending(latest))
      && data.username == latest.pendingUser && data.password == latest.pendingPassword
      && data.stamp.StampedAt? && Deadline(spec, w.publications) <= data.stamp.time <= w.clock
      && data.pendingUser.None? && data.pendingPassword.None?
  }

  /** Equal up to the details the rotation state does not depend on. */
  predicate SameState(a: SecretData, b: SecretData) {
    a.(details := b.details) == b
  }

  /** What holds whatever the worker is doing. */
  ghost predicate StateInv(spec: RotationSpec, w: World)
    requires ValidSpec(spec)
  {
    var latest := Latest(spec, w);
    && w.clock > 0
    && Consistent(spec, latest, w.publications)
    && (w.versions == [] ==> w.publications == [])
    && (HasPending(spec, latest) ==> PendingIsDue(spec, latest, w.publications, w.clock))
    && HistoryInv(spec, w.publications)
    && (w.publications != [] ==> w.publications[|w.publications| - 1].at <= w.clock)
    && RemoteInv(spec, w, latest)
    && SentInv(w)
  }

  ghost predicate Inv(spec: RotationSpec, w: World)
    requires ValidSpec(spec)
  {
    StateInv(spec, w) && WorkerInv(spec, w)
  }

  lemma NextUsernameAlternates(spec: RotationSpec, i: nat)
    requires ValidSpec(spec)
    ensures NextUsername(spec, spec.usernames[i % 2]) == spec.usernames[(i + 1) % 2]
    ensures spec.usernames[i % 2] != spec.usernames[(i + 1) % 2]
    ensures NextUsername(spec, "") == spec.usernames[0]
    ensures forall name :: NextUsername(spec, name) in spec.usernames
  {
    var names := spec.usernames;
    assert names == [names[0], names[1]];
    assert IndexOf(names, names[0]) == 0;
    assert IndexOf(names, names[1]) == 1;
    assert "" !in names;
  }

  lemma WasSavedGrows(versions: seq<SecretData>, more: seq<SecretData>, pair: Credential)
    requires WasSaved(versions, pair) && versions <= more
    ensures WasSaved(more, pair)
  {
    var v :| 0 <= v < |versions| && Pending(versions[v]) == pair;
    assert Pending(more[v]) == pair;
  }

  lemma SentInvGrows(w: World, more: seq<SecretData>)
    requires SentInv(w) && w.versions <= more
    ensures SentInv(w.(versions := more))
  {
    forall i | 0 <= i < |w.sent|
      ensures WasSaved(more, w.sent[i])
    {
      WasSavedGrows(w.versions, more, w.sent[i]);
    }
  }

  // ---------------------------------------------------------------- every step keeps the invariant

  lemma TouchKeepsInv(spec: RotationSpec, w: World, details: Details, next: World)
    requires ValidSpec(spec) && Inv(spec, w) && Next(spec, w, Touch(details)) == Some(next)
    ensures Inv(spec, next)
  {
    SentInvGrows(w, next.versions);
    assert Latest(spec, next) == Latest(spec, w).(details := details);
  }

  lemma PlantKeepsInv(spec: RotationSpec, w: World, user: Option<string>, password: Option<string>, next: World)
    requires ValidSpec(spec) && Inv(spec, w) && Next(spec, w, Plant(user, password)) == Some(next)
    ensures Inv(spec, next)
  {
    SentInvGrows(w, next.versions);
    assert Latest(spec, next) == Latest(spec, w).(pendingUser := user, pendingPassword := password);
  }

  lemma DecideKeepsInv(spec: RotationSpec, w: World, candidate: string, details: Details, next: World)
    requires ValidSpec(spec) && Inv(spec, w) && Next(spec, w, Decide(candidate, details)) == Some(next)
    ensures Inv(spec, next)
  {
    WorkerStepKeepsState(spec, w, next);
    if Due(spec, w.worker.data, w.clock) {
      RotatingKeepsInv(spec, w, candidate, details, next);
    }
  }

  lemma WorkerStepKeepsState(spec: RotationSpec, w: World, next: World)
    requires ValidSpec(spec) && StateInv(spec, w) && next == w.(worker := next.worker)
    ensures StateInv(spec, next)
  {
  }

  lemma RotatingKeepsInv(spec: RotationSpec, w: World, candidate: string, details: Details, next: World)
    requires ValidSpec(spec) && Inv(spec, w) && Next(spec, w, Decide(candidate, details)) == Some(next)
    requires Due(spec, w.worker.data, w.clock)
    ensures WorkerInv(spec, next)
  {
    NextUsernameAlternates(spec, 0);
  }

  lemma SaveKeepsInv(spec: RotationSpec, w: World, fate: Fate, next: World)
    requires ValidSpec(spec) && Inv(spec, w) && Next(spec, w, Save(fate)) == Some(next)
    ensures Inv(spec, next)
  {
    if fate.Applied() {
      SavedKeepsState(spec, w, next);
    } else {
      WorkerStepKeepsState(spec, w, next);
    }
  }

  lemma SavedKeepsState(spec: RotationSpec, w: World, next: World)
    requires ValidSpec(spec) && Inv(spec, w) && w.worker.Rotating? && w.worker.version == |w.versions|
    requires next == w.(versions := Append(w.versions, w.worker.data), worker := next.worker)
    ensures StateInv(spec, next)
  {
    SentInvGrows(w, next.versions);
    assert Latest(spec, next) == w.worker.data;
  }

  lemma ModifyKeepsInv(spec: RotationSpec, w: World, fate: Fate, next: World)
    requires ValidSpec(spec) && Inv(spec, w) && Next(spec, w, Modify(fate)) == Some(next)
    ensures Inv(spec, next)
  {
    assert Pending(w.versions[|w.versions| - 1]) == Pending(Latest(spec, w));
    SentOneMore(w, next);
    ModifyKeepsRemote(spec, w, fate, next);
  }

  /** The reset reaches the user who is not published. */
  lemma ModifyKeepsRemote(spec: RotationSpec, w: World, fate: Fate, next: World)
    requires ValidSpec(spec) && Inv(spec, w) && Next(spec, w, Modify(fate)) == Some(next)
    ensures RemoteInv(spec, next, Latest(spec, next)) && Pending(w.worker.data) == Pending(Latest(spec, w))
  {
    if w.publications != [] {
      PendingIsForTheOther(spec, w.publications, Latest(spec, w));
    }
  }

  lemma PendingIsForTheOther(spec: RotationSpec, publications: seq<Publication>, data: SecretData)
    requires ValidSpec(spec) && HistoryInv(spec, publications) && publications != []
    requires Consistent(spec, data, publications)
    requires data.pendingUser == Some(NextUsername(spec, Value(data.username)))
    ensures Pending(data).username != publications[|publications| - 1].credential.username
  {
    var n := |publications|;
    assert publications[n - 1].credential.username == spec.usernames[(n - 1) % 2];
    NextUsernameAlternates(spec, n - 1);
  }

  lemma SentOneMore(w: World, next: World)
    requires SentInv(w) && next.versions == w.versions && w.versions != []
    requires next.sent == w.sent + [Pending(w.versions[|w.versions| - 1])]
    ensures SentInv(next)
  {
    forall i | 0 <= i < |next.sent|
      ensures WasSaved(next.versions, next.sent[i])
    {
      if i < |w.sent| {
        assert next.sent[i] == w.sent[i];
      }
    }
  }

  lemma PublicationExtendsHistory(spec: RotationSpec, w: World, data: SecretData)
    requires ValidSpec(spec) && Inv(spec, w) && w.worker.Stamped? && w.worker.data == data
    ensures HistoryInv(spec, w.publications + [PublicationOf(data)])
  {
    NextPublication(spec, w, data);
    HistoryAppend(spec, w.publications, PublicationOf(data));
  }

  lemma NextPublication(spec: RotationSpec, w: World, data: SecretData)
    requires ValidSpec(spec) && Inv(spec, w) && w.worker.Stamped? && w.worker.data == data
    ensures var p, n := PublicationOf(data), |w.publications|;
            && p.credential.username == spec.usernames[n % 2] && p.at > 0
            && (n > 0 ==> w.publications[n - 1].at + spec.interval <= p.at)
  {
    NextUsernameAlternates(spec, if w.publications == [] then 0 else |w.publications| - 1);
  }

  lemma HistoryAppend(spec: RotationSpec, publications: seq<Publication>, p: Publication)
    requires |spec.usernames| == 2 && HistoryInv(spec, publications)
    requires p.credential.username == spec.usernames[|publications| % 2] && p.at > 0
    requires publications != [] ==> publications[|publications| - 1].at + spec.interval <= p.at
    ensures HistoryInv(spec, publications + [p])
  {
  }

  lemma PublicationIsAccepted(spec: RotationSpec, w: World, next: World)
    requires ValidSpec(spec) && Inv(spec, w) && w.worker.Stamped? && next.accepted == w.accepted
    requires next.publications == w.publications + [PublicationOf(w.worker.data)]
    ensures RemoteInv(spec, next, w.worker.data)
  {
    assert Accepts(w, PublicationOf(w.worker.data).credential);
  }

  lemma PublicationIsConsistent(spec: RotationSpec, w: World, data: SecretData, publications: seq<Publication>)
    requires ValidSpec(spec) && StateInv(spec, w) && WorkerInv(spec, w) && w.worker.Stamped? && w.worker.data == data
    requires publications == w.publications + [PublicationOf(data)]
    ensures Consistent(spec, data, publications) && !HasPending(spec, data)
    ensures publications[|publications| - 1].at <= w.clock
  {
  }

  lemma PublishKeepsInv(spec: RotationSpec, w: World, fate: Fate, next: World)
    requires ValidSpec(spec) && Inv(spec, w) && Next(spec, w, Publish(fate)) == Some(next)
    ensures Inv(spec, next)
  {
    if fate.Applied() {
      PublicationIsNew(spec, w, fate, next);
      PublishedKeepsInv(spec, w, w.worker.data, next);
    } else {
      WorkerStepKeepsState(spec, w, next);
    }
  }

  lemma PublicationIsNew(spec: RotationSpec, w: World, fate: Fate, next: World)
    requires ValidSpec(spec) && WorkerInv(spec, w) && Next(spec, w, Publish(fate)) == Some(next) && fate.Applied()
    ensures next == w.(versions := w.versions + [w.worker.data],
                       publications := w.publications + [PublicationOf(w.worker.data)], worker := Idle)
  {
  }

  lemma PublishedKeepsInv(spec: RotationSpec, w: World, data: SecretData, next: World)
    requires ValidSpec(spec) && Inv(spec, w) && w.worker.Stamped? && w.worker.data == data
    requires next == w.(versions := w.versions + [data], publications := w.publications + [PublicationOf(data)],
                        worker := Idle)
    ensures Inv(spec, next)
  {
    assert Latest(spec, next) == data;
    PublicationIsAccepted(spec, w, next);
    SentInvGrows(w, next.versions);
    PublicationExtendsHistory(spec, w, data);
    PublicationIsConsistent(spec, w, data, next.publications);
  }

  lemma RefreshKeepsInv(spec: RotationSpec, w: World, fate: Fate, next: World)
    requires ValidSpec(spec) && Inv(spec, w) && Next(spec, w, Refresh(fate)) == Some(next)
    ensures Inv(spec, next)
  {
    SentInvGrows(w, next.versions);
    if fate.Applied() {
      assert Latest(spec, next) == w.worker.data;
    }
  }

  lemma QuietStepKeepsInv(spec: RotationSpec, w: World, a: Action, next: World)
    requires ValidSpec(spec) && Inv(spec, w) && Next(spec, w, a) == Some(next)
    requires a.Read? || a.Die? || a.Stamp?
    ensures Inv(spec, next)
  {
    WorkerStepKeepsState(spec, w, next);
  }

  lemma TickKeepsInv(spec: RotationSpec, w: World, to: int, next: World)
    requires ValidSpec(spec) && Inv(spec, w) && Next(spec, w, Tick(to)) == Some(next)
    ensures Inv(spec, next)
  {
  }

  lemma NextKeepsInv(spec: RotationSpec, w: World, a: Action, next: World)
    requires ValidSpec(spec) && Inv(spec, w) && Next(spec, w, a) == Some(next)
    ensures Inv(spec, next)
  {
    match a
    case Tick(to) => TickKeepsInv(spec, w, to, next);
    case Touch(details) => TouchKeepsInv(spec, w, details, next);
    case Plant(user, password) => PlantKeepsInv(spec, w, user, password, next);
    case Read(_) => QuietStepKeepsInv(spec, w, a, next);
    case Die => QuietStepKeepsInv(spec, w, a, next);
    case Decide(candidate, details) => DecideKeepsInv(spec, w, candidate, details, next);
    case Save(fate) => SaveKeepsInv(spec, w, fate, next);
    case Modify(fate) => ModifyKeepsInv(spec, w, fate, next);
    case Stamp(_) => QuietStepKeepsInv(spec, w, a, next);
    case Publish(fate) => PublishKeepsInv(spec, w, fate, next);
    case Refresh(fate) => RefreshKeepsInv(spec, w, fate, next);
  }

  lemma {:induction false} RunKeepsInv(spec: RotationSpec, w: World, actions: seq<Action>, end: World)
    requires ValidSpec(spec) && Inv(spec, w) && Run(spec, w, actions) == Some(end)
    ensures Inv(spec, end)
    decreases |actions|
  {
    if actions != [] {
      var next := Next(spec, w, actions[0]).value;
      NextKeepsInv(spec, w, actions[0], next);
      RunKeepsInv(spec, next, actions[1..], end);
    }
  }

  lemma ReachableInv(spec: RotationSpec, w: World)
    requires ValidSpec(spec) && Reachable(spec, w)
    ensures Inv(spec, w)
  {
    var start, actions :| Initial(start) && Run(spec, start, actions) == Some(w);
    RunKeepsInv(spec, start, actions, w);
  }
}
