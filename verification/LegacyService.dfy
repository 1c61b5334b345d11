/** Services under the legacy reconciler: when they count as ready, and what that says about their connection Secret. */
module LegacyService {
  import opened Base

  datatype Migration = NotTracked | InProgress | MigrationFailed | MigrationDone

  datatype ErrorReason = DeleteError | PreconditionsError | CreateOrUpdateError | ConnInfoSecretError

  /** The reason of the Running condition, as far as passes tell them apart. */
  datatype RunningCondition = NeverSet | Unknown | PublishPending | CheckRunning | PoweredOff

  datatype Spec = Spec(body: string, powered: Option<bool>, noSecret: bool)

  datatype Object = Object(
    uid: string, generation: nat, spec: Spec, finalizer: bool,
    processed: Option<nat>,     // annotation generation-was-processed
    running: Option<bool>,      // annotation instance-is-running, false for powered off
    error: Option<ErrorReason>, condition: RunningCondition, migration: Migration)

  /** A controller reference; other fields of the Secret's metadata are left out. */
  datatype Owner = Owner(uid: string, group: string, kind: string, name: string)

  datatype Secret = Secret(owner: Option<Owner>, data: map<string, string>)

  predicate IsReadyToUse(o: Object) {
    o.running.Some? && o.processed == Some(o.generation)
  }

  predicate IsMarkedAsPoweredOff(o: Object) {
    o.running == Some(false)
  }

  predicate IsPowered(spec: Spec) {
    spec.powered != Some(false)
  }

  predicate ControlledBy(secret: Option<Secret>, uid: string) {
    secret.Some? && secret.value.owner.Some? && secret.value.owner.value.uid == uid
  }

  /** A ready service that is not powered off and wants a Secret has one, and it is its own. */
  predicate Published(o: Object, secret: Option<Secret>) {
    IsReadyToUse(o) && !IsMarkedAsPoweredOff(o) && !o.spec.noSecret ==> ControlledBy(secret, o.uid)
  }

  // ---------------------------------------------------------------- one pass

  /** prefix is what the keys of the connection details start with. */
  datatype Kind = Kind(
    group: string, kind: string, name: string, prefix: string,
    hasMigrationSource: bool, needsCA: bool, offersSecret: bool)

  datatype Gates = RefsMissing | RefKindDisabled | RefsNotReady | PreconditionsFail | PreconditionsNotMet | AllMet

  datatype CreateAnswer = Done | RequeueNeeded | ServerError | Refused

  datatype State = Running | Poweroff | OtherState

  datatype MigrationAnswer = MigrationUnreachable | NoActiveMigration | Status(migration: Migration)

  /** What the calls of a pass meet. data are the connection details as the adapter builds them. */
  datatype Calls = Calls(
    verifies: bool, gates: Gates, create: CreateAnswer,
    state: Option<State>, migration: MigrationAnswer, cleansUp: bool,
    data: map<string, string>, ca: Option<string>,
    readsSecret: bool, write: Fate)

  /** The object a pass works on, the Secret, and whether the last step failed. */
  datatype Result = Result(obj: Object, secret: Option<Secret>, ok: bool)

  function NeedsConnectionSecretPublish(o: Object, secret: Option<Secret>, verifies: bool): bool {
    !o.spec.noSecret && (o.error == Some(ConnInfoSecretError) || !verifies || o.uid == "" ||
        !ControlledBy(secret, o.uid))
  }

  predicate SameObject(a: Owner, b: Owner) {
    a.group == b.group && a.kind == b.kind && a.name == b.name
  }

  /** Creates the Secret or takes over the one that is there, unless another object controls it. */
  function Publish(o: Object, kind: Kind, data: map<string, string>, secret: Option<Secret>, calls: Calls): Result {
    var owner := Owner(o.uid, kind.group, kind.kind, kind.name);
    if !calls.readsSecret then Result(o, secret, false)
    else if secret.Some? && secret.value.owner.Some? && !SameObject(secret.value.owner.value, owner) then
        Result(o, secret, false)
    else
      var wanted := Some(Secret(Some(owner), data));
      if secret == wanted then Result(o, secret, true)
      else Result(o, if calls.write.Applied() then wanted else secret, calls.write.Acknowledged?)
  }

  function PublishFailed(o: Object): Object {
    o.(running := None, condition := PublishPending, error := Some(ConnInfoSecretError))
  }

  function MarkedRunning(o: Object): Object {
    o.(running := Some(true), condition := CheckRunning)
  }

  /** The switch on the service type adds the certificate, Kafka under a second key as well. */
  function WithCertificate(kind: Kind, data: map<string, string>, ca: string): map<string, string> {
    var prefixed := data[kind.prefix + "CA_CERT" := ca];
    if kind.kind == "Kafka" then prefixed["CA_CERT" := ca] else prefixed
  }

  /** The part of observe that deals with the Secret of a running service. */
  function PublishRunning(o: Object, kind: Kind, secret: Option<Secret>, calls: Calls): Result {
    if !kind.offersSecret || o.spec.noSecret then Result(MarkedRunning(o), secret, true)
    else if kind.needsCA && calls.ca.None? then Result(PublishFailed(o), secret, false)
    else
      var data := if kind.needsCA then WithCertificate(kind, calls.data, calls.ca.value) else calls.data;
      var published := Publish(o, kind, data, secret, calls);
      if published.ok then published.(obj := MarkedRunning(o)) else published.(obj := PublishFailed(o))
  }

  function UpdateMigrationStatus(o: Object, answer: MigrationAnswer): Option<Object> {
    match answer
    case MigrationUnreachable => None
    case NoActiveMigration => Some(o.(migration := MigrationDone))
    case Status(m) => Some(o.(migration := if m.NotTracked? then InProgress else m))
  }

  /** The migration status is polled until the migration is done; None if it cannot be read. */
  function Tracked(o: Object, kind: Kind, answer: MigrationAnswer): Option<Object> {
    if kind.hasMigrationSource && o.migration != MigrationDone then UpdateMigrationStatus(o, answer) else Some(o)
  }

  function Cleared(o: Object): Object {
    if o.error == Some(ConnInfoSecretError) then o.(error := None) else o
  }

  /** The part of observe that deals with a service in the state that its spec asks for. */
  function ObserveSettled(o: Object, kind: Kind, secret: Option<Secret>, calls: Calls): Result {
    if !IsPowered(o.spec) then Result(Cleared(o).(running := Some(false), condition := PoweredOff), secret, true)
    else PublishRunning(Cleared(o), kind, secret, calls)
  }

  predicate IsInDesiredState(spec: Spec, state: State) {
    if IsPowered(spec) then state.Running? else state.Poweroff?
  }

  function Observe(o: Object, kind: Kind, secret: Option<Secret>, calls: Calls): Result {
    if calls.state.None? then Result(o, secret, false)
    else if !IsInDesiredState(o.spec, calls.state.value) then Result(o, secret, true)
    else
      var tracked := Tracked(o, kind, calls.migration);
      if tracked.None? then Result(o, secret, false)
      else if kind.hasMigrationSource && !calls.cleansUp then Result(tracked.value, secret, false)
      else ObserveSettled(tracked.value, kind, secret, calls)
  }

  /** Create or update at Aiven: both marks go first, and the generation counts as processed only on success. */
  function CreateOrUpdate(o: Object, answer: CreateAnswer): Object {
    var unmarked := o.(processed := None, running := None);
    match answer
    case Done => unmarked.(processed := Some(o.generation), condition := Unknown)
    case RequeueNeeded => unmarked
    case ServerError => unmarked
    case Refused => unmarked.(error := Some(CreateOrUpdateError))
  }

  function ReconcileInstance(o: Object, kind: Kind, secret: Option<Secret>, calls: Calls): Result {
    var protected := o.(finalizer := true);
    match calls.gates
    case RefKindDisabled => Result(protected.(error := Some(PreconditionsError)), secret, false)
    case RefsMissing => Result(protected, secret, true)
    case RefsNotReady => Result(protected, secret, true)
    case PreconditionsFail => Result(protected.(error := Some(PreconditionsError)), secret, false)
    case PreconditionsNotMet => Result(protected, secret, true)
    case AllMet => ReconcileMet(protected, kind, secret, calls)
  }

  function ReconcileMet(o: Object, kind: Kind, secret: Option<Secret>, calls: Calls): Result {
    if o.processed == Some(o.generation) then Observe(o, kind, secret, calls)
    else
      var applied := CreateOrUpdate(o, calls.create);
      if calls.create.Done? then Observe(applied, kind, secret, calls)
      else Result(applied, secret, !calls.create.Refused?)
  }

  /** What happens to a ready object before anything else: it stays ready, loses the mark, or the pass is over. */
  datatype Start = Skip | GoOn(obj: Object)

  function Begin(o: Object, secret: Option<Secret>, verifies: bool): Start {
    if !IsReadyToUse(o) then GoOn(o)
    else if !IsMarkedAsPoweredOff(o) && NeedsConnectionSecretPublish(o, secret, verifies) then
      GoOn(o.(running := None, condition := PublishPending))
    else if o.migration == InProgress then GoOn(o)
    else Skip
  }

  /** What becomes of the two writes of a write-back: spec and metadata first, the status after it. */
  datatype Writes = Writes(update: Fate, status: Fate)

  /** The first write replaces spec and metadata of whatever is stored by then; a changed spec is a new generation. */
  function Updated(stored: Object, o: Object): Object {
    stored.(spec := o.spec, finalizer := o.finalizer, processed := o.processed, running := o.running,
            generation := if stored.spec == o.spec then stored.generation else stored.generation + 1)
  }

  function WithStatus(stored: Object, o: Object): Object {
    stored.(error := o.error, condition := o.condition, migration := o.migration)
  }

  /** What is stored in the end. Nothing is written if nothing changed, and another object of the same name is
      not overwritten. */
  function Written(o: Object, result: Object, others: Object, writes: Writes): Object {
    if result == o || others.uid != o.uid || !writes.update.Applied() then others
    else if writes.update.Acknowledged? && writes.status.Applied() then WithStatus(Updated(others, result), result)
    else Updated(others, result)
  }

  /** One pass on the current object. others is what is stored when the pass writes: somebody may have edited the
      spec, or replaced the object by a new one of the same name. */
  function Pass(o: Object, secret: Option<Secret>, kind: Kind, calls: Calls, others: Object, writes: Writes)
    : (Object, Option<Secret>)
  {
    match Begin(o, secret, calls.verifies)
    case Skip => (others, secret)
    case GoOn(started) =>
      var result := ReconcileInstance(started, kind, secret, calls);
      (Written(o, result.obj, others, writes), result.secret)
  }

  /** Others edit the spec, which makes a new generation, and write nothing else; a replacement starts without marks. */
  predicate IsEdited(o: Object, others: Object) {
    if others.uid == o.uid then
      others == o.(generation := others.generation, spec := others.spec) && others.generation >= o.generation &&
      (others.generation == o.generation <==> others.spec == o.spec)
    else others.running.None? && others.processed.None?
  }

  /** No generation is processed before it exists. */
  predicate IsSound(o: Object) {
    o.processed.Some? ==> o.processed.value <= o.generation
  }

  /** The adapters that offer no Secret belong to kinds that do not want one. */
  predicate Suits(kind: Kind, spec: Spec) {
    kind.offersSecret || spec.noSecret
  }

  // ---------------------------------------------------------------- what readiness says

  lemma PublishControls(o: Object, kind: Kind, data: map<string, string>, secret: Option<Secret>, calls: Calls)
    ensures Publish(o, kind, data, secret, calls).ok ==>
            ControlledBy(Publish(o, kind, data, secret, calls).secret, o.uid)
    ensures Publish(o, kind, data, secret, calls).ok ==> Publish(o, kind, data, secret, calls).secret.value.data == data
    ensures ControlledBy(secret, o.uid) ==> ControlledBy(Publish(o, kind, data, secret, calls).secret, o.uid)
  {
  }

  predicate SameIdentity(a: Object, b: Object) {
    a.uid == b.uid && a.generation == b.generation && a.spec == b.spec
  }

  /** What a step makes of an object: the same object with the same generation processed, and it does not lose its
      own Secret. */
  predicate KeepsIdentity(o: Object, secret: Option<Secret>, r: Result) {
    && SameIdentity(r.obj, o) && r.obj.processed == o.processed
    && (ControlledBy(secret, o.uid) ==> ControlledBy(r.secret, o.uid))
  }

  /** And it is newly marked running only with a Secret of its own. */
  predicate KeepsPromise(o: Object, secret: Option<Secret>, r: Result) {
    && KeepsIdentity(o, secret, r)
    && (r.obj.running == Some(true) ==> o.running == Some(true) || o.spec.noSecret || ControlledBy(r.secret, o.uid))
  }

  lemma PublishRunningPublishes(o: Object, kind: Kind, secret: Option<Secret>, calls: Calls)
    ensures KeepsIdentity(o, secret, PublishRunning(o, kind, secret, calls))
    ensures Suits(kind, o.spec) ==> KeepsPromise(o, secret, PublishRunning(o, kind, secret, calls))
  {
    if kind.offersSecret && !o.spec.noSecret && (kind.needsCA ==> calls.ca.Some?) {
      var data := if kind.needsCA then WithCertificate(kind, calls.data, calls.ca.value) else calls.data;
      PublishControls(o, kind, data, secret, calls);
    }
  }

  /** The same but for the migration status, and for an error that is cleared. */
  predicate SameMarks(a: Object, b: Object) {
    SameIdentity(a, b) && a.processed == b.processed && a.running == b.running
  }

  lemma SettledPublishes(o: Object, tracked: Object, kind: Kind, secret: Option<Secret>, calls: Calls)
    requires SameMarks(tracked, o)
    ensures KeepsIdentity(o, secret, ObserveSettled(tracked, kind, secret, calls))
    ensures Suits(kind, o.spec) ==> KeepsPromise(o, secret, ObserveSettled(tracked, kind, secret, calls))
  {
    PublishRunningPublishes(Cleared(tracked), kind, secret, calls);
  }

  lemma ObservePublishes(o: Object, kind: Kind, secret: Option<Secret>, calls: Calls)
    ensures KeepsIdentity(o, secret, Observe(o, kind, secret, calls))
    ensures Suits(kind, o.spec) ==> KeepsPromise(o, secret, Observe(o, kind, secret, calls))
  {
    var tracked := Tracked(o, kind, calls.migration);
    if tracked.Some? {
      SettledPublishes(o, tracked.value, kind, secret, calls);
    }
  }

  lemma ObservedPublished(o: Object, kind: Kind, secret: Option<Secret>, calls: Calls)
    requires Suits(kind, o.spec) && Published(o, secret)
    ensures var r := Observe(o, kind, secret, calls);
            SameIdentity(r.obj, o) && Published(r.obj, r.secret) && r.obj.processed == o.processed
  {
    ObservePublishes(o, kind, secret, calls);
  }

  lemma MetPublishes(o: Object, kind: Kind, secret: Option<Secret>, calls: Calls)
    requires Suits(kind, o.spec) && Published(o, secret)
    ensures var r := ReconcileMet(o, kind, secret, calls); SameIdentity(r.obj, o) && Published(r.obj, r.secret)
  {
    if o.processed == Some(o.generation) {
      ObservedPublished(o, kind, secret, calls);
    } else {
      var applied := CreateOrUpdate(o, calls.create);
      assert Published(applied, secret) && SameIdentity(applied, o);
      ObservedPublished(applied, kind, secret, calls);
    }
  }

  lemma ReconcilePublishes(o: Object, kind: Kind, secret: Option<Secret>, calls: Calls)
    requires Suits(kind, o.spec) && Published(o, secret)
    ensures var r := ReconcileInstance(o, kind, secret, calls); SameIdentity(r.obj, o) && Published(r.obj, r.secret)
  {
    MetPublishes(o.(finalizer := true), kind, secret, calls);
  }

  /** The pass is about the same object and the same generation throughout, and keeps a Secret that is its own. */
  lemma MetKeepsIdentity(o: Object, kind: Kind, secret: Option<Secret>, calls: Calls)
    ensures var r := ReconcileMet(o, kind, secret, calls);
            && SameIdentity(r.obj, o) && (IsSound(o) ==> IsSound(r.obj))
            && (ControlledBy(secret, o.uid) ==> ControlledBy(r.secret, o.uid))
  {
    if o.processed == Some(o.generation) {
      ObservePublishes(o, kind, secret, calls);
    } else {
      ObservePublishes(CreateOrUpdate(o, calls.create), kind, secret, calls);
    }
  }

  lemma ReconcileKeepsIdentity(o: Object, kind: Kind, secret: Option<Secret>, calls: Calls)
    ensures var r := ReconcileInstance(o, kind, secret, calls);
            && SameIdentity(r.obj, o) && (IsSound(o) ==> IsSound(r.obj))
            && (ControlledBy(secret, o.uid) ==> ControlledBy(r.secret, o.uid))
  {
    MetKeepsIdentity(o.(finalizer := true), kind, secret, calls);
  }

  lemma BeginPublishes(o: Object, secret: Option<Secret>, verifies: bool)
    ensures var start := Begin(o, secret, verifies);
            if start.Skip? then Published(o, secret)
            else SameIdentity(start.obj, o) && Published(start.obj, secret) && (IsSound(o) ==> IsSound(start.obj))
  {
  }

  /** Every pass that gets its first write through, or has nothing to write, leaves a service that is ready, not powered
      off and wants a Secret only with a connection Secret that its current UID controls. It does not matter what was
      there before: a Secret of an earlier object of that name, one that failed to publish, or none. */
  lemma ReadyMeansPublished(
    o: Object, secret: Option<Secret>, kind: Kind, calls: Calls, others: Object, writes: Writes,
    end: Object, left: Option<Secret>)
    requires Suits(kind, o.spec) && IsSound(o) && IsEdited(o, others)
    requires Pass(o, secret, kind, calls, others, writes) == (end, left)
    requires writes.update.Applied()
    ensures Published(end, left)
  {
    BeginPublishes(o, secret, calls.verifies);
    var start := Begin(o, secret, calls.verifies);
    if start.GoOn? {
      ReconcilePublishes(start.obj, kind, secret, calls);
      ReconcileKeepsIdentity(start.obj, kind, secret, calls);
      var r := ReconcileInstance(start.obj, kind, secret, calls);
      WrittenPublishes(o, others, r.obj, r.secret, writes);
    }
  }

  lemma WrittenPublishes(o: Object, others: Object, result: Object, secret: Option<Secret>, writes: Writes)
    requires SameIdentity(result, o) && IsSound(o) && IsSound(result) && IsEdited(o, others) &&
             Published(result, secret)
    requires writes.update.Applied()
    ensures Published(Written(o, result, others, writes), secret)
  {
  }

  /** The calls of a pass over a processed generation that take it to the Secret and write it. */
  predicate WritesSecret(o: Object, kind: Kind, secret: Option<Secret>, calls: Calls) {
    && calls.gates.AllMet? && calls.state.Some? && IsInDesiredState(o.spec, calls.state.value) && IsPowered(o.spec)
    && (kind.hasMigrationSource ==>
          calls.cleansUp && (o.migration == MigrationDone || !calls.migration.MigrationUnreachable?))
    && kind.offersSecret && (kind.needsCA ==> calls.ca.Some?)
    && calls.readsSecret && IsFree(secret, kind) && calls.write.Applied()
  }

  /** No other object controls the Secret; an earlier object of the same name does not count as another one. */
  predicate IsFree(secret: Option<Secret>, kind: Kind) {
    secret.Some? && secret.value.owner.Some? ==>
      SameObject(secret.value.owner.value, Owner("", kind.group, kind.kind, kind.name))
  }

  lemma PublishingTakesOver(o: Object, kind: Kind, secret: Option<Secret>, calls: Calls)
    requires !o.spec.noSecret && !ControlledBy(secret, o.uid)
    ensures ControlledBy(PublishRunning(o, kind, secret, calls).secret, o.uid) <==>
            && kind.offersSecret && (kind.needsCA ==> calls.ca.Some?)
            && calls.readsSecret && IsFree(secret, kind) && calls.write.Applied()
  {
  }

  lemma ObservingTakesOver(o: Object, kind: Kind, secret: Option<Secret>, calls: Calls)
    requires !o.spec.noSecret && !ControlledBy(secret, o.uid) && calls.gates.AllMet?
    ensures ControlledBy(Observe(o, kind, secret, calls).secret, o.uid) <==> WritesSecret(o, kind, secret, calls)
  {
    var tracked := Tracked(o, kind, calls.migration);
    if tracked.Some? {
      PublishingTakesOver(Cleared(tracked.value), kind, secret, calls);
    }
  }

  lemma ReconcilingTakesOver(o: Object, kind: Kind, secret: Option<Secret>, calls: Calls)
    requires !o.spec.noSecret && !ControlledBy(secret, o.uid) && o.processed == Some(o.generation)
    ensures ControlledBy(ReconcileInstance(o, kind, secret, calls).secret, o.uid) <==>
            WritesSecret(o, kind, secret, calls)
  {
    if calls.gates.AllMet? {
      ObservingTakesOver(o.(finalizer := true), kind, secret, calls);
    }
  }

  /** What the Secret is after the pass, for a service that was ready without a Secret of its own. */
  lemma UnpublishedTakesOver(o: Object, secret: Option<Secret>, kind: Kind, calls: Calls, others: Object,
      writes: Writes)
    requires !Published(o, secret)
    ensures ControlledBy(Pass(o, secret, kind, calls, others, writes).1, o.uid) <==>
            WritesSecret(o, kind, secret, calls)
  {
    var started := o.(running := None, condition := PublishPending);
    assert Begin(o, secret, calls.verifies) == GoOn(started);
    ReconcilingTakesOver(started, kind, secret, calls);
  }

  lemma PassKeepsSecret(o: Object, secret: Option<Secret>, kind: Kind, calls: Calls, others: Object, writes: Writes)
    ensures ControlledBy(secret, o.uid) ==> ControlledBy(Pass(o, secret, kind, calls, others, writes).1, o.uid)
  {
    var start := Begin(o, secret, calls.verifies);
    if start.GoOn? {
      ReconcileKeepsIdentity(start.obj, kind, secret, calls);
    }
  }

  /** When the first write is refused, what is stored is ready without a Secret of its own exactly if that was so
      before the pass, nobody has touched the object, and the pass did not get as far as writing the Secret. The next
      pass then starts by taking the mark away. */
  lemma FailedWriteBack(
    o: Object, secret: Option<Secret>, kind: Kind, calls: Calls, others: Object, status: Fate,
    end: Object, left: Option<Secret>)
    requires IsSound(o) && IsEdited(o, others)
    requires Pass(o, secret, kind, calls, others, Writes(Rejected, status)) == (end, left)
    ensures !Published(end, left) <==> others == o && !Published(o, secret) && !WritesSecret(o, kind, secret, calls)
    ensures !Published(end, left) ==> Begin(end, left, true) == GoOn(end.(running := None, condition := PublishPending))
  {
    assert end == others;
    PassKeepsSecret(o, secret, kind, calls, others, Writes(Rejected, status));
    if !Published(o, secret) {
      UnpublishedTakesOver(o, secret, kind, calls, others, Writes(Rejected, status));
    }
  }

  /** Every call of the pass succeeds, and the service runs. */
  predicate IsFaultFree(kind: Kind, calls: Calls) {
    && calls.verifies && calls.gates.AllMet? && calls.create.Done? && calls.state == Some(Running)
    && !calls.migration.MigrationUnreachable? && calls.cleansUp && calls.ca.Some?
    && calls.readsSecret && calls.write.Acknowledged?
  }

  /** The Secret is there, and the object owns it under its current UID and name. */
  predicate OwnedBy(secret: Option<Secret>, o: Object, kind: Kind) {
    secret.Some? && secret.value.owner == Some(Owner(o.uid, kind.group, kind.kind, kind.name))
  }

  lemma FaultFreePublish(o: Object, kind: Kind, secret: Option<Secret>, calls: Calls)
    requires kind.offersSecret && !o.spec.noSecret && IsFaultFree(kind, calls) && IsFree(secret, kind)
    ensures var r := PublishRunning(o, kind, secret, calls);
            r.obj == MarkedRunning(o) && OwnedBy(r.secret, o, kind)
  {
  }

  lemma FaultFreeObserve(o: Object, kind: Kind, secret: Option<Secret>, calls: Calls)
    requires kind.offersSecret && !o.spec.noSecret && IsPowered(o.spec) && IsFaultFree(kind, calls) &&
             IsFree(secret, kind)
    ensures var r := Observe(o, kind, secret, calls);
            && r.obj.running == Some(true) && OwnedBy(r.secret, o, kind)
            && SameIdentity(r.obj, o) && r.obj.processed == o.processed
  {
    FaultFreePublish(Cleared(Tracked(o, kind, calls.migration).value), kind, secret, calls);
  }

  /** From whatever state, however many passes failed before: one pass that meets no failure leaves the service ready,
      with a Secret of its own. */
  lemma FaultFreePassPublishes(o: Object, kind: Kind, secret: Option<Secret>, calls: Calls)
    requires kind.offersSecret && !o.spec.noSecret && IsPowered(o.spec) && IsFaultFree(kind, calls) &&
             IsFree(secret, kind)
    requires IsReadyToUse(o) ==> !IsMarkedAsPoweredOff(o)
    ensures var (end, left) := Pass(o, secret, kind, calls, o, Writes(Acknowledged, Acknowledged));
            && IsReadyToUse(end) && end.running == Some(true)
            && ControlledBy(left, o.uid) && end.uid == o.uid
  {
    var start := Begin(o, secret, calls.verifies);
    if start.GoOn? {
      FaultFreeReconcile(start.obj, kind, secret, calls);
      FaultFreeWrite(o, ReconcileInstance(start.obj, kind, secret, calls).obj);
    } else {
      assert o.running == Some(o.running.value) && (o.running.value || o.running == Some(false));
    }
  }

  lemma FaultFreeWrite(o: Object, result: Object)
    requires SameIdentity(result, o)
    ensures var end := Written(o, result, o, Writes(Acknowledged, Acknowledged));
            SameIdentity(end, o) && end.running == result.running && end.processed == result.processed
  {
  }

  lemma FaultFreeReconcile(o: Object, kind: Kind, secret: Option<Secret>, calls: Calls)
    requires kind.offersSecret && !o.spec.noSecret && IsPowered(o.spec) && IsFaultFree(kind, calls) &&
             IsFree(secret, kind)
    ensures var r := ReconcileInstance(o, kind, secret, calls);
            && r.obj.running == Some(true) && OwnedBy(r.secret, o, kind)
            && SameIdentity(r.obj, o) && r.obj.processed == Some(o.generation)
  {
    var protected := o.(finalizer := true);
    if protected.processed == Some(protected.generation) {
      FaultFreeObserve(protected, kind, secret, calls);
    } else {
      FaultFreeObserve(CreateOrUpdate(protected, calls.create), kind, secret, calls);
    }
  }

  /** In particular, a service recreated under the same name takes over the Secret of its predecessor. */
  lemma RecreationTakesOver(o: Object, kind: Kind, secret: Secret, calls: Calls)
    requires kind.offersSecret && !o.spec.noSecret && IsPowered(o.spec) && IsFaultFree(kind, calls) && o.running.None?
    requires secret.owner.Some? && SameObject(secret.owner.value, Owner("", kind.group, kind.kind, kind.name))
    ensures var (end, left) := Pass(o, Some(secret), kind, calls, o, Writes(Acknowledged, Acknowledged));
            IsReadyToUse(end) && ControlledBy(left, o.uid) && left.value.owner.value.name == kind.name
  {
    assert Begin(o, Some(secret), calls.verifies) == GoOn(o);
    FaultFreeReconcile(o, kind, Some(secret), calls);
    FaultFreeWrite(o, ReconcileInstance(o, kind, Some(secret), calls).obj);
  }

  /** Without the condition on the adapter the claim fails: such a service is ready and wants a Secret that nobody
      writes. */
  lemma NoSecretOffered(o: Object, secret: Option<Secret>, kind: Kind, calls: Calls)
    requires !Suits(kind, o.spec) && IsPowered(o.spec) && !kind.hasMigrationSource && o.processed != Some(o.generation)
    requires calls.gates.AllMet? && calls.create.Done? && calls.state == Some(Running)
    ensures var (end, left) := Pass(o, secret, kind, calls, o, Writes(Acknowledged, Acknowledged));
            left == secret && (Published(end, left) <==> ControlledBy(secret, o.uid))
  {
  }

  // ---------------------------------------------------------------- edits made during a pass

  lemma WrittenPutsTheSpecBack(o: Object, result: Object, others: Object, writes: Writes)
    requires SameIdentity(result, o) && IsSound(result)
    requires others.uid == o.uid && others.spec != o.spec && others.generation > o.generation
    ensures var end := Written(o, result, others, writes);
            && (end.spec == others.spec <==> result == o || !writes.update.Applied())
            && (end.spec != others.spec ==>
                  end.spec == o.spec && end.generation > others.generation && !IsReadyToUse(end))
  {
  }

  /** The pass ends with the object as it was read. */
  predicate HasNothingToWrite(o: Object, secret: Option<Secret>, kind: Kind, calls: Calls) {
    match Begin(o, secret, calls.verifies)
    case Skip => true
    case GoOn(started) => ReconcileInstance(started, kind, secret, calls).obj == o
  }

  /** The write-back takes over the version number of what is stored by then, so that an edit of the spec made during
      the pass causes no conflict. The edit survives exactly if the pass has nothing to write or its first write is
      refused; otherwise the spec from before the edit is put back, as a new generation that nobody has processed. */
  lemma EditSurvivesExactlyIfNothingIsWritten(
    o: Object, secret: Option<Secret>, kind: Kind, calls: Calls, others: Object, writes: Writes,
    end: Object, left: Option<Secret>)
    requires IsSound(o) && IsEdited(o, others) && others.uid == o.uid && others.spec != o.spec
    requires Pass(o, secret, kind, calls, others, writes) == (end, left)
    ensures end.spec == others.spec <==> HasNothingToWrite(o, secret, kind, calls) || !writes.update.Applied()
    ensures end.spec != others.spec ==> end.spec == o.spec && end.generation > others.generation && !IsReadyToUse(end)
  {
    var start := Begin(o, secret, calls.verifies);
    if start.GoOn? {
      ReconcileKeepsIdentity(start.obj, kind, secret, calls);
      WrittenPutsTheSpecBack(o, ReconcileInstance(start.obj, kind, secret, calls).obj, others, writes);
    }
  }
}
