/** What one pass of the legacy reconciler leaves behind, field by field, from the object it read and the answers it
    met; and what that means for finalizer and marks over any number of passes. */
module LegacyPasses {
  import opened Base
  import opened LegacyService

  // ---------------------------------------------------------------- the Secret of a running service

  predicate Offers(o: Object, kind: Kind) {
    kind.offersSecret && !o.spec.noSecret
  }

  /** Nobody else controls the Secret. */
  predicate MayTake(secret: Option<Secret>, kind: Kind) {
    secret.Some? && secret.value.owner.Some? ==>
      var owner := secret.value.owner.value;
      owner.group == kind.group && owner.kind == kind.kind && owner.name == kind.name
  }

  /** What is published: the details of the adapter and, where the kind has one, the certificate. */
  function Wanted(uid: string, kind: Kind, calls: Calls): Secret
    requires kind.needsCA ==> calls.ca.Some?
  {
    var key := kind.prefix + "CA_CERT";
    Secret(Some(Owner(uid, kind.group, kind.kind, kind.name)),
           if !kind.needsCA then calls.data
           else if kind.kind == "Kafka" then calls.data + map[key := calls.ca.value] + map["CA_CERT" := calls.ca.value]
           else calls.data + map[key := calls.ca.value])
  }

  predicate CanWrite(o: Object, kind: Kind, secret: Option<Secret>, calls: Calls) {
    Offers(o, kind) && (kind.needsCA ==> calls.ca.Some?) && calls.readsSecret && MayTake(secret, kind)
  }

  predicate HasPublished(o: Object, kind: Kind, secret: Option<Secret>, calls: Calls) {
    && CanWrite(o, kind, secret, calls)
    && (secret == Some(Wanted(o.uid, kind, calls)) || calls.write.Acknowledged?)
  }

  lemma WantedIsPublished(o: Object, kind: Kind, calls: Calls)
    requires kind.needsCA ==> calls.ca.Some?
    ensures var data := if kind.needsCA then WithCertificate(kind, calls.data, calls.ca.value) else calls.data;
            Wanted(o.uid, kind, calls) == Secret(Some(Owner(o.uid, kind.group, kind.kind, kind.name)), data)
  {
  }

  lemma PublishLeaves(o: Object, kind: Kind, secret: Option<Secret>, calls: Calls)
    ensures var r := PublishRunning(o, kind, secret, calls);
            && r.secret == (if CanWrite(o, kind, secret, calls) && calls.write.Applied()
                            then Some(Wanted(o.uid, kind, calls)) else secret)
            && r.ok == (!Offers(o, kind) || HasPublished(o, kind, secret, calls))
            && r.obj == if r.ok then o.(running := Some(true), condition := CheckRunning)
                        else o.(running := None, condition := PublishPending, error := Some(ConnInfoSecretError))
  {
    if kind.needsCA ==> calls.ca.Some? {
      WantedIsPublished(o, kind, calls);
    }
  }

  // ---------------------------------------------------------------- observing

  /** The service is found in the state that the spec asks for. */
  predicate FindsState(o: Object, calls: Calls) {
    calls.state == Some(if o.spec.powered == Some(false) then Poweroff else Running)
  }

  predicate PollsMigration(o: Object, kind: Kind) {
    kind.hasMigrationSource && o.migration != MigrationDone
  }

  /** What the migration status becomes: done when the service knows of none, and never back to untracked. */
  function MigrationAfter(before: Migration, answer: MigrationAnswer): Migration {
    match answer
    case MigrationUnreachable => before
    case NoActiveMigration => MigrationDone
    case Status(InProgress) => InProgress
    case Status(NotTracked) => InProgress
    case Status(MigrationFailed) => MigrationFailed
    case Status(MigrationDone) => MigrationDone
  }

  predicate GetsToSecret(o: Object, kind: Kind, calls: Calls) {
    && FindsState(o, calls)
    && (PollsMigration(o, kind) ==> !calls.migration.MigrationUnreachable?)
    && (kind.hasMigrationSource ==> calls.cleansUp)
  }

  lemma TrackedLeaves(o: Object, kind: Kind, answer: MigrationAnswer)
    ensures Tracked(o, kind, answer) ==
            if !PollsMigration(o, kind) then Some(o)
            else if answer.MigrationUnreachable? then None
            else Some(o.(migration := MigrationAfter(o.migration, answer)))
  {
  }

  lemma SettledLeaves(o: Object, kind: Kind, secret: Option<Secret>, calls: Calls)
    ensures var r := ObserveSettled(o, kind, secret, calls);
            var powered := o.spec.powered != Some(false);
            var failed := powered && Offers(o, kind) && !HasPublished(o, kind, secret, calls);
            && r.secret == (if powered && CanWrite(o, kind, secret, calls) && calls.write.Applied()
                            then Some(Wanted(o.uid, kind, calls)) else secret)
            && r.obj == o.(
                 running := if !powered then Some(false) else if failed then None else Some(true),
                 condition := if !powered then PoweredOff else if failed then PublishPending else CheckRunning,
                 error := if failed then Some(ConnInfoSecretError)
                          else if o.error == Some(ConnInfoSecretError) then None else o.error)
  {
    PublishLeaves(Cleared(o), kind, secret, calls);
  }

  lemma ObserveLeaves(o: Object, kind: Kind, secret: Option<Secret>, calls: Calls)
    ensures var r := Observe(o, kind, secret, calls);
            var powered, settled := o.spec.powered != Some(false), GetsToSecret(o, kind, calls);
            var failed := powered && Offers(o, kind) && !HasPublished(o, kind, secret, calls);
            && r.secret == (if settled && powered && CanWrite(o, kind, secret, calls) && calls.write.Applied()
                            then Some(Wanted(o.uid, kind, calls)) else secret)
            && r.obj == o.(
                 migration := if FindsState(o, calls) && PollsMigration(o, kind)
                              then MigrationAfter(o.migration, calls.migration) else o.migration,
                 running := if !settled then o.running else if !powered then Some(false)
                            else if failed then None else Some(true),
                 condition := if !settled then o.condition else if !powered then PoweredOff
                              else if failed then PublishPending else CheckRunning,
                 error := if !settled then o.error else if failed then Some(ConnInfoSecretError)
                          else if o.error == Some(ConnInfoSecretError) then None else o.error)
  {
    TrackedLeaves(o, kind, calls.migration);
    var tracked := Tracked(o, kind, calls.migration);
    if tracked.Some? {
      SettledLeaves(tracked.value, kind, secret, calls);
    }
  }

  // ---------------------------------------------------------------- the whole pass

  /** The generation still has to be created or updated at Aiven. */
  predicate IsFresh(o: Object) {
    o.processed != Some(o.generation)
  }

  predicate GetsToObserve(o: Object, calls: Calls) {
    calls.gates.AllMet? && (IsFresh(o) ==> calls.create.Done?)
  }

  /** The object with its finalizer, and without its marks if its generation still has to be applied. */
  function Applied(o: Object, calls: Calls): Object {
    if calls.gates.RefKindDisabled? || calls.gates.PreconditionsFail? then
      o.(finalizer := true, error := Some(PreconditionsError))
    else if !calls.gates.AllMet? || !IsFresh(o) then o.(finalizer := true)
    else o.(finalizer := true, running := None,
            processed := if calls.create.Done? then Some(o.generation) else None,
            condition := if calls.create.Done? then Unknown else o.condition,
            error := if calls.create.Refused? then Some(CreateOrUpdateError) else o.error)
  }

  lemma PassLeaves(o: Object, kind: Kind, secret: Option<Secret>, calls: Calls)
    ensures ReconcileInstance(o, kind, secret, calls) ==
            if GetsToObserve(o, calls) then Observe(Applied(o, calls), kind, secret, calls)
            else Result(Applied(o, calls), secret,
                        !(calls.gates.RefKindDisabled? || calls.gates.PreconditionsFail? ||
                          (calls.gates.AllMet? && calls.create.Refused?)))
  {
  }

  // ---------------------------------------------------------------- marks are earned

  /** A generation counts as processed only once it was created or updated with all preconditions met; the running mark
      says in which state the service was found; and a generation that is not applied loses both marks. */
  lemma MarksAreEarned(o: Object, kind: Kind, secret: Option<Secret>, calls: Calls)
    ensures var r := ReconcileInstance(o, kind, secret, calls).obj;
            && r.uid == o.uid && r.generation == o.generation && r.spec == o.spec && r.finalizer
            && (r.processed.Some? && r.processed != o.processed ==>
                  calls.gates.AllMet? && calls.create.Done? && r.processed == Some(o.generation))
            && (r.running == Some(true) && o.running != Some(true) ==>
                  o.spec.powered != Some(false) && calls.state == Some(Running))
            && (r.running == Some(false) && o.running != Some(false) ==>
                  o.spec.powered == Some(false) && calls.state == Some(Poweroff))
            && (calls.gates.AllMet? && o.processed != Some(o.generation) && !calls.create.Done? ==>
                  r.processed.None? && r.running.None?)
            && (calls.gates.AllMet? && o.processed != Some(o.generation) && calls.create.Done? ==>
                  r.processed == Some(o.generation))
            && (!calls.gates.AllMet? ==> r.processed == o.processed && r.running == o.running)
  {
    PassLeaves(o, kind, secret, calls);
    ObserveLeaves(Applied(o, calls), kind, secret, calls);
  }

  /** What counts as done stays done, and it becomes done or failed only by an answer that says so. */
  lemma MigrationFollowsAnswers(o: Object, kind: Kind, secret: Option<Secret>, calls: Calls)
    ensures var r := ReconcileInstance(o, kind, secret, calls).obj;
            && (o.migration.MigrationDone? || !kind.hasMigrationSource ==> r.migration == o.migration)
            && (r.migration.MigrationDone? && !o.migration.MigrationDone? ==>
                  calls.migration == NoActiveMigration || calls.migration == Status(MigrationDone))
            && (r.migration.MigrationFailed? && !o.migration.MigrationFailed? ==>
                  calls.migration == Status(MigrationFailed))
            && (r.migration.NotTracked? ==> o.migration.NotTracked?)
  {
    PassLeaves(o, kind, secret, calls);
    MigrationObserved(Applied(o, calls), kind, secret, calls);
  }

  lemma MigrationObserved(o: Object, kind: Kind, secret: Option<Secret>, calls: Calls)
    ensures Observe(o, kind, secret, calls).obj.migration ==
            if FindsState(o, calls) && PollsMigration(o, kind) then MigrationAfter(o.migration, calls.migration)
            else o.migration
  {
    ObserveLeaves(o, kind, secret, calls);
  }

  // ---------------------------------------------------------------- which objects a pass leaves alone

  /** A pass is over at once exactly if the object is ready, has a Secret that can be verified as its own unless it is
      powered off or wants none, and no migration is in progress. */
  lemma SkipsExactly(o: Object, secret: Option<Secret>, verifies: bool)
    ensures var own := secret.Some? && secret.value.owner.Some? && secret.value.owner.value.uid == o.uid;
            var trusted := o.spec.noSecret ||
                           (o.error != Some(ConnInfoSecretError) && verifies && o.uid != "" && own);
            var ready := o.running.Some? && o.processed == Some(o.generation);
            && (Begin(o, secret, verifies) == Skip <==>
                  ready && (o.running == Some(false) || trusted) && o.migration != InProgress)
            && (Begin(o, secret, verifies) != Skip ==>
                  Begin(o, secret, verifies) ==
                  GoOn(if ready && o.running != Some(false) && !trusted
                       then o.(running := None, condition := PublishPending) else o))
  {
  }

  // ---------------------------------------------------------------- what is stored

  /** With nobody else at work, the result of a pass is stored as it is; a status that is not stored stays behind. */
  lemma StoredExactly(o: Object, result: Object, writes: Writes)
    requires result.uid == o.uid && result.generation == o.generation && result.spec == o.spec
    ensures Written(o, result, o, writes) ==
            if !writes.update.Applied() then o
            else if writes.update.Acknowledged? && writes.status.Applied() then result
            else result.(error := o.error, condition := o.condition, migration := o.migration)
  {
  }

  /** A pass that goes on, and whose first write is applied to the object that it read, leaves it with a finalizer. */
  lemma PassFinalizes(
    o: Object, secret: Option<Secret>, kind: Kind, calls: Calls, others: Object, writes: Writes,
    end: Object, left: Option<Secret>)
    requires IsEdited(o, others) && others.uid == o.uid && writes.update.Applied()
    requires Begin(o, secret, calls.verifies) != Skip
    requires Pass(o, secret, kind, calls, others, writes) == (end, left)
    ensures end.finalizer
  {
    MarksAreEarned(Begin(o, secret, calls.verifies).obj, kind, secret, calls);
  }

  /** Nothing is left behind at Aiven by deleting the object: whatever was processed or runs has a finalizer. */
  predicate IsGuarded(o: Object) {
    o.processed.Some? || o.running.Some? ==> o.finalizer
  }

  lemma PassKeepsGuard(
    o: Object, secret: Option<Secret>, kind: Kind, calls: Calls, others: Object, writes: Writes,
    end: Object, left: Option<Secret>)
    requires IsGuarded(o) && IsEdited(o, others)
    requires Pass(o, secret, kind, calls, others, writes) == (end, left)
    ensures IsGuarded(end)
  {
    if Begin(o, secret, calls.verifies) != Skip && others.uid == o.uid && writes.update.Applied() {
      PassFinalizes(o, secret, kind, calls, others, writes, end, left);
    }
  }

  /** What a pass on the stored object promises: its finalizer, the guard of its marks, and readiness that can be
      trusted. */
  lemma PassPromises(
    o: Object, secret: Option<Secret>, kind: Kind, calls: Calls, others: Object, writes: Writes,
    end: Object, left: Option<Secret>)
    requires IsEdited(o, others) && Pass(o, secret, kind, calls, others, writes) == (end, left)
    ensures writes.update.Applied() && Suits(kind, o.spec) && IsSound(o) ==> Published(end, left)
    ensures writes.update.Applied() && others.uid == o.uid && Begin(o, secret, calls.verifies) != Skip ==> end.finalizer
    ensures IsGuarded(o) ==> IsGuarded(end)
  {
    if writes.update.Applied() && others.uid == o.uid && Begin(o, secret, calls.verifies) != Skip {
      PassFinalizes(o, secret, kind, calls, others, writes, end, left);
    }
    if IsGuarded(o) {
      PassKeepsGuard(o, secret, kind, calls, others, writes, end, left);
    }
    if writes.update.Applied() && Suits(kind, o.spec) && IsSound(o) {
      ReadyMeansPublished(o, secret, kind, calls, others, writes, end, left);
    }
  }

  // ---------------------------------------------------------------- any number of passes

  /** One pass: the answers that it meets, what others have stored by the time it writes, and what becomes of that. */
  datatype Round = Round(calls: Calls, others: Object, writes: Writes)

  function Passes(o: Object, secret: Option<Secret>, kind: Kind, rounds: seq<Round>): (Object, Option<Secret>)
    decreases |rounds|
  {
    if rounds == [] then (o, secret)
    else
      var (next, left) := Pass(o, secret, kind, rounds[0].calls, rounds[0].others, rounds[0].writes);
      Passes(next, left, kind, rounds[1..])
  }

  /** Others edit the object as they may, during every pass. */
  ghost predicate AreEdits(o: Object, secret: Option<Secret>, kind: Kind, rounds: seq<Round>)
    decreases |rounds|
  {
    rounds == [] ||
    var (next, left) := Pass(o, secret, kind, rounds[0].calls, rounds[0].others, rounds[0].writes);
    IsEdited(o, rounds[0].others) && AreEdits(next, left, kind, rounds[1..])
  }

  /** From a new object on, in every run of passes with any answers, edits, replacements and failing writes, an object
      that was ever applied and is still marked so has its finalizer. */
  lemma {:induction false} MarkedObjectsAreGuarded(
    o: Object, secret: Option<Secret>, kind: Kind, rounds: seq<Round>, end: Object, left: Option<Secret>)
    requires IsGuarded(o) && AreEdits(o, secret, kind, rounds) && Passes(o, secret, kind, rounds) == (end, left)
    ensures IsGuarded(end)
    decreases |rounds|
  {
    if rounds != [] {
      var first := rounds[0];
      var (next, taken) := Pass(o, secret, kind, first.calls, first.others, first.writes);
      PassKeepsGuard(o, secret, kind, first.calls, first.others, first.writes, next, taken);
      MarkedObjectsAreGuarded(next, taken, kind, rounds[1..], end, left);
    }
  }

  lemma PassKeepsSound(
    o: Object, secret: Option<Secret>, kind: Kind, calls: Calls, others: Object, writes: Writes,
    end: Object, left: Option<Secret>)
    requires IsSound(o) && IsEdited(o, others)
    requires Pass(o, secret, kind, calls, others, writes) == (end, left)
    ensures IsSound(end)
  {
    BeginPublishes(o, secret, calls.verifies);
    var start := Begin(o, secret, calls.verifies);
    if start.GoOn? {
      ReconcileKeepsIdentity(start.obj, kind, secret, calls);
    }
  }

  /** Nor does it matter what earlier passes, failures, edits and replacements have left: after every pass of a run
      whose first write is applied, a service that is ready and wants a Secret has one of its own. */
  lemma {:induction false} EveryRunPublishes(
    o: Object, secret: Option<Secret>, kind: Kind, rounds: seq<Round>, end: Object, left: Option<Secret>)
    requires IsSound(o) && AreEdits(o, secret, kind, rounds) && rounds != []
    requires Passes(o, secret, kind, rounds) == (end, left) && rounds[|rounds| - 1].writes.update.Applied()
    requires kind.offersSecret
    ensures Published(end, left)
    decreases |rounds|
  {
    var first := rounds[0];
    var (next, taken) := Pass(o, secret, kind, first.calls, first.others, first.writes);
    if |rounds| == 1 {
      assert rounds[1..] == [] && (end, left) == (next, taken);
      ReadyMeansPublished(o, secret, kind, first.calls, first.others, first.writes, next, taken);
    } else {
      PassKeepsSound(o, secret, kind, first.calls, first.others, first.writes, next, taken);
      assert rounds[1..][|rounds| - 2] == rounds[|rounds| - 1];
      EveryRunPublishes(next, taken, kind, rounds[1..], end, left);
    }
  }
}
