/** The legacy reconciler's pass, step by step on the object it holds. */
module LegacyReconciler {
  import opened Base
  import opened LegacyService
  import opened LegacyPasses

  class ServiceObject {
    const uid: string
    var generation: nat
    var spec: Spec
    var finalizer: bool
    var processed: Option<nat>
    var running: Option<bool>
    var error: Option<ErrorReason>
    var condition: RunningCondition
    var migration: Migration

    constructor (o: Object)
      ensures Value() == o
    {
      uid, generation, spec, finalizer := o.uid, o.generation, o.spec, o.finalizer;
      processed, running, error, condition, migration := o.processed, o.running, o.error, o.condition, o.migration;
    }

    function Value(): Object
      reads this
    {
      Object(uid, generation, spec, finalizer, processed, running, error, condition, migration)
    }

    method MarkRunning()
      modifies this
      ensures Value() == MarkedRunning(old(Value()))
    {
      condition, running := CheckRunning, Some(true);
    }

    method MarkPublishFailed()
      modifies this
      ensures Value() == PublishFailed(old(Value()))
    {
      running := None;
      condition := PublishPending;
      error := Some(ConnInfoSecretError);
    }
  }

  /** The Secret, the stored object, and the passes that work on them. */
  class Cluster {
    const kind: Kind
    var secret: Option<Secret>
    var stored: Object

    constructor (kind: Kind, secret: Option<Secret>, stored: Object)
      ensures this.kind == kind && this.secret == secret && this.stored == stored
    {
      this.kind, this.secret, this.stored := kind, secret, stored;
    }

    method NeedsPublish(o: ServiceObject, verifies: bool) returns (needed: bool)
      ensures needed <==> NeedsConnectionSecretPublish(o.Value(), secret, verifies)
    {
      if o.spec.noSecret {
        return false;
      }
      if o.error == Some(ConnInfoSecretError) {
        return true;
      }
      if !verifies || secret.None? {
        return true;
      }
      var owner := secret.value.owner;
      needed := owner.None? || o.uid == "" || owner.value.uid != o.uid;
    }

    /** Takes the Secret over, or creates it, with exactly these details. */
    method PublishConnectionSecret(o: ServiceObject, details: map<string, string>, calls: Calls) returns (ok: bool)
      modifies this`secret
      ensures Result(o.Value(), secret, ok) == Publish(o.Value(), kind, details, old(secret), calls)
    {
      if !calls.readsSecret {
        return false;
      }
      var data: map<string, string> := map[];
      var keys := details.Keys;
      while keys != {}
        invariant keys <= details.Keys
        invariant data == map k | k in details.Keys - keys :: details[k]
        decreases |keys|
      {
        var key :| key in keys;
        data := data[key := details[key]];
        keys := keys - {key};
      }
      assert data == details;
      var owner := Owner(o.uid, kind.group, kind.kind, kind.name);
      if secret.Some? && secret.value.owner.Some? && !SameObject(secret.value.owner.value, owner) {
        return false;
      }
      var wanted := Some(Secret(Some(owner), data));
      if secret == wanted {
        return true;
      }
      if calls.write.Applied() {
        secret := wanted;
      }
      ok := calls.write.Acknowledged?;
    }

    method PublishDetails(o: ServiceObject, calls: Calls) returns (ok: bool)
      modifies this`secret, o
      ensures Result(o.Value(), secret, ok) == PublishRunning(old(o.Value()), kind, old(secret), calls)
    {
      if !kind.offersSecret || o.spec.noSecret {
        o.MarkRunning();
        return true;
      }
      var data := calls.data;
      if kind.needsCA {
        if calls.ca.None? {
          o.MarkPublishFailed();
          return false;
        }
        data := data[kind.prefix + "CA_CERT" := calls.ca.value];
        if kind.kind == "Kafka" {
          data := data["CA_CERT" := calls.ca.value];
        }
      }
      ok := PublishConnectionSecret(o, data, calls);
      if ok {
        o.MarkRunning();
      } else {
        o.MarkPublishFailed();
      }
    }

    /** The migration status is polled until the migration is done. */
    method UpdateMigration(o: ServiceObject, answer: MigrationAnswer) returns (ok: bool)
      modifies o
      ensures ok <==> UpdateMigrationStatus(old(o.Value()), answer).Some?
      ensures o.Value() == if ok then UpdateMigrationStatus(old(o.Value()), answer).value else old(o.Value())
    {
      match answer {
        case MigrationUnreachable =>
          return false;
        case NoActiveMigration =>
          o.migration := MigrationDone;
        case Status(m) =>
          o.migration := if m.NotTracked? then InProgress else m;
      }
      ok := true;
    }

    method ObserveService(o: ServiceObject, calls: Calls) returns (ok: bool)
      modifies this`secret, o
      ensures Result(o.Value(), secret, ok) == Observe(old(o.Value()), kind, old(secret), calls)
    {
      if calls.state.None? {
        return false;
      }
      var isPowered := true;
      if o.spec.powered.Some? {
        isPowered := o.spec.powered.value;
      }
      if (!isPowered || !calls.state.value.Running?) && (isPowered || !calls.state.value.Poweroff?) {
        return true;
      }
      if kind.hasMigrationSource {
        if o.migration != MigrationDone {
          var updated := UpdateMigration(o, calls.migration);
          if !updated {
            return false;
          }
        }
        if !calls.cleansUp {
          return false;
        }
      }
      if o.error == Some(ConnInfoSecretError) {
        o.error := None;
      }
      if !isPowered {
        o.condition, o.running := PoweredOff, Some(false);
        return true;
      }
      ok := PublishDetails(o, calls);
    }

    /** Returns whether the pass may go on to observe. */
    method CreateOrUpdateInstance(o: ServiceObject, answer: CreateAnswer) returns (ok: bool)
      modifies o
      ensures o.Value() == CreateOrUpdate(old(o.Value()), answer)
      ensures ok <==> answer.Done?
    {
      o.processed, o.running := None, None;
      if answer.RequeueNeeded? || answer.ServerError? {
        return false;
      }
      if answer.Refused? {
        o.error := Some(CreateOrUpdateError);
        return false;
      }
      o.condition := Unknown;
      o.processed := Some(o.generation);
      ok := true;
    }

    method ReconcileObject(o: ServiceObject, calls: Calls) returns (ok: bool)
      modifies this`secret, o
      ensures Result(o.Value(), secret, ok) == ReconcileInstance(old(o.Value()), kind, old(secret), calls)
    {
      o.finalizer := true;
      if !calls.gates.AllMet? {
        if calls.gates.RefKindDisabled? || calls.gates.PreconditionsFail? {
          o.error := Some(PreconditionsError);
          return false;
        }
        return true;
      }
      if o.processed != Some(o.generation) {
        var created := CreateOrUpdateInstance(o, calls.create);
        if !created {
          return !calls.create.Refused?;
        }
      }
      ok := ObserveService(o, calls);
    }

    /** Writes spec and metadata over what others stored meanwhile, then the status. */
    method WriteBack(o: ServiceObject, ghost orig: Object, others: Object, writes: Writes)
      requires o.Value() != orig && o.uid == orig.uid
      modifies this`stored
      ensures stored == Written(orig, o.Value(), others, writes)
    {
      stored := others;
      if others.uid != o.uid || !writes.update.Applied() {
        return;
      }
      stored := stored.(spec := o.spec, finalizer := o.finalizer, processed := o.processed, running := o.running,
                        generation := if others.spec == o.spec then others.generation else others.generation + 1);
      if !writes.update.Acknowledged? {
        return;
      }
      if writes.status.Applied() {
        stored := stored.(error := o.error, condition := o.condition, migration := o.migration);
      }
    }

    /** One pass, with what others store meanwhile. */
    method Reconcile(calls: Calls, others: Object, writes: Writes)
      requires IsEdited(stored, others)
      modifies this
      ensures (stored, secret) == Pass(old(stored), old(secret), kind, calls, others, writes)
      ensures writes.update.Applied() && old(Suits(kind, stored.spec) && IsSound(stored)) ==> Published(stored, secret)
      // The finalizer is stored with the first write of a pass, and stays with the marks.
      ensures writes.update.Applied() && others.uid == old(stored).uid &&
              Begin(old(stored), old(secret), calls.verifies) != Skip ==>
                stored.finalizer
      ensures (old(stored).processed.None? && old(stored).running.None?) || old(stored).finalizer ==>
                (stored.processed.Some? || stored.running.Some? ==> stored.finalizer)
    {
      var o := new ServiceObject(stored);
      var orig := stored;
      ghost var started := Begin(stored, secret, calls.verifies);
      var skip := false;
      if IsReadyToUse(stored) {
        var needed := NeedsPublish(o, calls.verifies);
        if !IsMarkedAsPoweredOff(stored) && needed {
          o.running, o.condition := None, PublishPending;
        } else if o.migration != InProgress {
          skip := true;
        }
      }
      assert started == if skip then Skip else GoOn(o.Value());
      if !skip {
        var ok := ReconcileObject(o, calls);
        ReconcileKeepsIdentity(started.obj, kind, secret, calls);
      }
      if skip || o.Value() == orig {
        stored := others;
      } else {
        WriteBack(o, orig, others, writes);
      }
      PassPromises(orig, old(secret), kind, calls, others, writes, stored, secret);
    }
  }
}
