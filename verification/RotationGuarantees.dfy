/** What the rotation promises the applications that read its Secret. */
module RotationGuarantees {
  import opened Base
  import opened RotationProtocol

  /** A published pair is the one the service accepts. */
  lemma PublishedPairWorks(spec: RotationSpec, w: World)
    requires ValidSpec(spec) && Reachable(spec, w)
    requires Published(Latest(spec, w))
    ensures Accepts(w, Credential(Value(Latest(spec, w).username), Value(Latest(spec, w).password)))
  {
    ReachableInv(spec, w);
  }

  /** Publications are an interval apart, and a replaced pair keeps working for an interval. */
  lemma Handover(spec: RotationSpec, w: World, i: nat)
    requires ValidSpec(spec) && Reachable(spec, w)
    requires 0 < i < |w.publications|
    ensures w.publications[i - 1].at + spec.interval <= w.publications[i].at <= w.clock
    ensures w.clock < w.publications[i].at + spec.interval ==> Accepts(w, w.publications[i - 1].credential)
  {
    ReachableInv(spec, w);
    var n := |w.publications|;
    LaterPublications(spec, w.publications, i - 1, i);
    LaterPublications(spec, w.publications, i, n - 1);
    if i == n - 1 {
      PreviousPairWorks(spec, w);
    }
  }

  /** A rotation that would replace the pair before the last one does not begin within the interval. */
  lemma PreviousPairWorks(spec: RotationSpec, w: World)
    requires ValidSpec(spec) && Inv(spec, w) && |w.publications| >= 2
    ensures var n := |w.publications|;
            w.clock < w.publications[n - 1].at + spec.interval ==> Accepts(w, w.publications[n - 2].credential)
  {
  }

  lemma {:induction false} LaterPublications(spec: RotationSpec, publications: seq<Publication>, i: nat, j: nat)
    requires ValidSpec(spec) && HistoryInv(spec, publications)
    requires i <= j < |publications|
    ensures publications[i].at <= publications[j].at
    ensures i < j ==> publications[i].at + spec.interval <= publications[j].at
    decreases j
  {
    if i < j {
      LaterPublications(spec, publications, i, j - 1);
      assert publications[j - 1].at + spec.interval <= publications[j].at;
    }
  }

  /** The users take turns, beginning with the first in the list. */
  lemma UsersAlternate(spec: RotationSpec, w: World, i: nat)
    requires ValidSpec(spec) && Reachable(spec, w)
    requires i < |w.publications|
    ensures w.publications[i].credential.username == spec.usernames[i % 2]
    ensures i > 0 ==> w.publications[i].credential.username != w.publications[i - 1].credential.username
  {
    ReachableInv(spec, w);
    assert HistoryInv(spec, w.publications);
  }

  /** Whatever is sent to Aiven is, at that moment, in the Secret as the pending pair. */
  lemma SentOnlyWhileSaved(spec: RotationSpec, w: World, a: Action, next: World)
    requires ValidSpec(spec) && Reachable(spec, w)
    requires Next(spec, w, a) == Some(next)
    ensures next.sent == w.sent
            || (next.sent == w.sent + [Pending(Latest(spec, w))] && w.versions != [] &&
               HasPending(spec, Latest(spec, w)))
    ensures forall i | 0 <= i < |next.sent| :: WasSaved(w.versions, next.sent[i])
  {
    ReachableInv(spec, w);
    if a.Modify? {
      assert Pending(w.versions[|w.versions| - 1]) == Pending(Latest(spec, w));
    }
  }

  /** A pending pair that is incomplete, or not for one of the users, brings nothing forward: the Secret is treated
      as if the pair were not there. */
  lemma InvalidPendingPairIsIgnored(spec: RotationSpec, data: SecretData, now: int, candidate: string)
    requires ValidSpec(spec) && !data.stamp.Unparsable?
    requires data.pendingPassword.None? || data.pendingPassword == Some("") ||
             Value(data.pendingUser) !in spec.usernames
    ensures Due(spec, data, now) <==> Due(spec, WithoutPending(data), now)
    ensures WithPending(spec, data, candidate) == WithPending(spec, WithoutPending(data), candidate)
    ensures Pending(WithPending(spec, data, candidate)) ==
            Credential(NextUsername(spec, Value(data.username)), candidate)
  {
    assert !HasPending(spec, data) && !HasPending(spec, WithoutPending(data));
  }

  predicate IsValidPair(spec: RotationSpec, pair: Credential) {
    pair.username in spec.usernames && |pair.password| > 0
  }

  /** What was sent since is valid. */
  ghost predicate SendsValidPairs(spec: RotationSpec, before: seq<Credential>, after: seq<Credential>) {
    before <= after && forall i | |before| <= i < |after| :: IsValidPair(spec, after[i])
  }

  lemma SendsCompose(spec: RotationSpec, a: seq<Credential>, b: seq<Credential>, c: seq<Credential>)
    requires SendsValidPairs(spec, a, b) && SendsValidPairs(spec, b, c)
    ensures SendsValidPairs(spec, a, c)
  {
    forall i | |a| <= i < |c|
      ensures IsValidPair(spec, c[i])
    {
      if i < |b| {
        assert c[i] == b[i];
      }
    }
  }

  lemma NextSendsValidPairs(spec: RotationSpec, w: World, a: Action, next: World)
    requires ValidSpec(spec) && Inv(spec, w) && Next(spec, w, a) == Some(next)
    ensures w.publications <= next.publications && SendsValidPairs(spec, w.sent, next.sent)
  {
    if a.Modify? {
      ModifySendsValidPair(spec, w, a.fate, next);
    }
  }

  lemma ModifySendsValidPair(spec: RotationSpec, w: World, fate: Fate, next: World)
    requires ValidSpec(spec) && WorkerInv(spec, w) && Next(spec, w, Modify(fate)) == Some(next)
    ensures next.publications == w.publications && SendsValidPairs(spec, w.sent, next.sent)
  {
    assert Pending(w.worker.data) == Pending(Latest(spec, w));
  }

  lemma {:induction false} RunSendsValidPairs(spec: RotationSpec, w: World, actions: seq<Action>, end: World)
    requires ValidSpec(spec) && Inv(spec, w) && Run(spec, w, actions) == Some(end)
    ensures w.publications <= end.publications && SendsValidPairs(spec, w.sent, end.sent)
    decreases |actions|
  {
    if actions != [] {
      var next := Next(spec, w, actions[0]).value;
      NextKeepsInv(spec, w, actions[0], next);
      NextSendsValidPairs(spec, w, actions[0], next);
      RunSendsValidPairs(spec, next, actions[1..], end);
      SendsCompose(spec, w.sent, next.sent, end.sent);
    }
  }

  /** Whatever pending pair somebody leaves in the Secret, if it is not a valid one it is never sent, and the next
      publication of any run comes no earlier than without it, for the user whose turn it is. */
  lemma PlantedPairBringsNothingForward(spec: RotationSpec, w: World, user: Option<string>, password: Option<string>,
                                        planted: World, actions: seq<Action>, end: World)
    requires ValidSpec(spec) && Reachable(spec, w) && Next(spec, w, Plant(user, password)) == Some(planted)
    requires Run(spec, planted, actions) == Some(end)
    ensures forall i | |w.sent| <= i < |end.sent| ::
              IsValidPair(spec, end.sent[i]) && end.sent[i] != Credential(Value(user), Value(password))
    ensures var n := |w.publications|;
            |end.publications| > n ==>
              && end.publications[n].at >= Deadline(spec, w.publications)
              && end.publications[n].credential.username == spec.usernames[n % 2]
  {
    ReachableInv(spec, w);
    NextKeepsInv(spec, w, Plant(user, password), planted);
    RunSendsValidPairs(spec, planted, actions, end);
    RunKeepsInv(spec, planted, actions, end);
    NextPublicationIsDue(spec, w.publications, end.publications);
  }

  lemma NextPublicationIsDue(spec: RotationSpec, before: seq<Publication>, after: seq<Publication>)
    requires ValidSpec(spec) && HistoryInv(spec, after) && before <= after
    ensures var n := |before|;
            |after| > n ==>
              after[n].at >= Deadline(spec, before) && after[n].credential.username == spec.usernames[n % 2]
  {
    var n := |before|;
    if |after| > n > 0 {
      assert after[n - 1] == before[n - 1];
      assert after[n - 1].at + spec.interval <= after[n].at;
    }
  }

  // ---------------------------------------------------------------- interrupted rotations

  /** Where a rotation that has saved its pair in w stands in a later state. */
  ghost predicate Resumes(spec: RotationSpec, w: World, later: World)
    requires |spec.usernames| > 0
  {
    var pair := Pending(Latest(spec, w));
    var done := w.accepted[pair.username := pair.password];
    var n := |w.publications|;
    && w.publications <= later.publications
    && if |later.publications| == n
       then && HasPending(spec, Latest(spec, later))
            && Pending(Latest(spec, later)) == pair
            && (later.accepted == w.accepted || later.accepted == done)
       else && later.publications[n].credential == pair
            && (|later.publications| == n + 1 && !HasPending(spec, Latest(spec, later)) ==> later.accepted == done)
  }

  lemma ModifyResumes(spec: RotationSpec, w: World, mid: World, fate: Fate, next: World)
    requires ValidSpec(spec) && Inv(spec, mid) && Resumes(spec, w, mid)
    requires Next(spec, mid, Modify(fate)) == Some(next)
    ensures Resumes(spec, w, next)
  {
    assert Pending(mid.worker.data) == Pending(Latest(spec, mid));
  }

  /** The first publication since w is that of the pair, the others come after it. */
  lemma FirstPublicationResumes(spec: RotationSpec, w: World, mid: World, fate: Fate, next: World)
    requires ValidSpec(spec) && Inv(spec, mid) && Resumes(spec, w, mid) && fate.Applied()
    requires Next(spec, mid, Publish(fate)) == Some(next) && |mid.publications| == |w.publications|
    ensures Resumes(spec, w, next)
  {
    var pair := Pending(Latest(spec, w));
    assert next.versions == mid.versions + [mid.worker.data];
    assert PublicationOf(mid.worker.data).credential == Pending(Latest(spec, mid));
    assert Accepts(mid, pair);
    assert mid.accepted == mid.accepted[pair.username := pair.password];
  }

  lemma PublishResumes(spec: RotationSpec, w: World, mid: World, fate: Fate, next: World)
    requires ValidSpec(spec) && Inv(spec, mid) && Resumes(spec, w, mid)
    requires Next(spec, mid, Publish(fate)) == Some(next)
    ensures Resumes(spec, w, next)
  {
    if fate.Applied() {
      if |mid.publications| == |w.publications| {
        FirstPublicationResumes(spec, w, mid, fate, next);
      } else {
        LaterPublicationResumes(spec, w, mid, fate, next);
      }
    }
  }

  lemma LaterPublicationResumes(spec: RotationSpec, w: World, mid: World, fate: Fate, next: World)
    requires ValidSpec(spec) && Resumes(spec, w, mid) && fate.Applied()
    requires Next(spec, mid, Publish(fate)) == Some(next) && |mid.publications| != |w.publications|
    ensures Resumes(spec, w, next)
  {
    assert next.publications == mid.publications + [PublicationOf(mid.worker.data)];
  }

  /** No step but publishing clears a pending pair. */
  lemma PendingPersists(spec: RotationSpec, mid: World, a: Action, next: World)
    requires ValidSpec(spec) && Inv(spec, mid) && !a.Publish? && !a.Modify?
    requires Next(spec, mid, a) == Some(next)
    ensures next.publications == mid.publications && next.accepted == mid.accepted
    ensures HasPending(spec, Latest(spec, mid)) ==>
              HasPending(spec, Latest(spec, next)) && Pending(Latest(spec, next)) == Pending(Latest(spec, mid))
  {
    if a.Save? || a.Refresh? {
      WritePersists(spec, mid, a, next);
    }
  }

  lemma WritePersists(spec: RotationSpec, mid: World, a: Action, next: World)
    requires ValidSpec(spec) && WorkerInv(spec, mid) && (a.Save? || a.Refresh?)
    requires Next(spec, mid, a) == Some(next)
    ensures next.publications == mid.publications && next.accepted == mid.accepted
    ensures HasPending(spec, Latest(spec, mid)) ==>
              HasPending(spec, Latest(spec, next)) && Pending(Latest(spec, next)) == Pending(Latest(spec, mid))
  {
  }

  lemma NextResumes(spec: RotationSpec, w: World, mid: World, a: Action, next: World)
    requires ValidSpec(spec) && Inv(spec, mid) && Resumes(spec, w, mid)
    requires Next(spec, mid, a) == Some(next)
    ensures Resumes(spec, w, next)
  {
    if a.Modify? {
      ModifyResumes(spec, w, mid, a.fate, next);
    } else if a.Publish? {
      PublishResumes(spec, w, mid, a.fate, next);
    } else {
      PendingPersists(spec, mid, a, next);
    }
  }

  lemma {:induction false} RunResumes(spec: RotationSpec, w: World, mid: World, actions: seq<Action>, end: World)
    requires ValidSpec(spec) && Inv(spec, mid) && Resumes(spec, w, mid)
    requires Run(spec, mid, actions) == Some(end)
    ensures Resumes(spec, w, end)
    decreases |actions|
  {
    if actions != [] {
      var next := Next(spec, mid, actions[0]).value;
      NextKeepsInv(spec, mid, actions[0], next);
      NextResumes(spec, w, mid, actions[0], next);
      RunResumes(spec, w, next, actions[1..], end);
    }
  }

  /** Once a pair is saved, it is the next one published, however often the rotation is interrupted. */
  lemma SavedPairIsPublishedNext(spec: RotationSpec, w: World, actions: seq<Action>, end: World)
    requires ValidSpec(spec) && Reachable(spec, w) && HasPending(spec, Latest(spec, w))
    requires Run(spec, w, actions) == Some(end)
    ensures if |end.publications| == |w.publications|
            then HasPending(spec, Latest(spec, end)) && Pending(Latest(spec, end)) == Pending(Latest(spec, w))
            else |end.publications| > |w.publications|
                 && end.publications[|w.publications|].credential == Pending(Latest(spec, w))
  {
    ReachableInv(spec, w);
    RunKeepsInv(spec, w, actions, end);
    RunResumes(spec, w, w, actions, end);
  }

  /** A pass that starts over and rotates without a fault. */
  function Uninterrupted(w: World, candidate: string, details: Details): seq<Action> {
    Deciding(w, candidate, details) + [Save(Acknowledged)] + Finishing(details)
  }

  /** A pass that has nothing to rotate. */
  function Refreshing(w: World, candidate: string, details: Details): seq<Action> {
    Deciding(w, candidate, details) + [Refresh(Acknowledged)]
  }

  function Deciding(w: World, candidate: string, details: Details): seq<Action> {
    [Die, Read(|w.versions|)] + [Decide(candidate, details)]
  }

  function Finishing(details: Details): seq<Action> {
    [Modify(Acknowledged), Stamp(details), Publish(Acknowledged)]
  }

  function Decided(spec: RotationSpec, w: World, candidate: string, details: Details): World
    requires |spec.usernames| > 0 && !Latest(spec, w).stamp.Unparsable?
  {
    var read := Latest(spec, w);
    var current := if Published(read) then Refreshed(read, details) else read;
    w.(worker :=
      if Due(spec, read, w.clock) then Rotating(|w.versions|, WithPending(spec, current, candidate))
      else Worker.Refreshing(|w.versions|, WithoutPending(current)))
  }

  lemma DecidingDecides(spec: RotationSpec, w: World, candidate: string, details: Details)
    requires |spec.usernames| > 0 && !Latest(spec, w).stamp.Unparsable? && |candidate| > 0
    ensures Run(spec, w, Deciding(w, candidate, details)) == Some(Decided(spec, w, candidate, details))
  {
    var held := w.(worker := Holding(|w.versions|, Latest(spec, w)));
    assert Next(spec, w.(worker := Idle), Read(|w.versions|)) == Some(held);
    RunOneMore(spec, w, [Die], w.(worker := Idle), Read(|w.versions|), held) by {
      RunOneMore(spec, w, [], w, Die, w.(worker := Idle));
      assert [] + [Die] == [Die];
    }
    assert [Die] + [Read(|w.versions|)] == [Die, Read(|w.versions|)];
    RunOneMore(spec, w, [Die, Read(|w.versions|)], held, Decide(candidate, details),
               Decided(spec, w, candidate, details));
  }

  lemma SavingSaves(spec: RotationSpec, w: World, candidate: string, details: Details) returns (mid: World)
    requires |spec.usernames| > 0 && !Latest(spec, w).stamp.Unparsable? && |candidate| > 0
    requires Due(spec, Latest(spec, w), w.clock)
    ensures Run(spec, w, Deciding(w, candidate, details) + [Save(Acknowledged)]) == Some(mid)
    ensures mid.worker.Saved? && mid.worker.version == |mid.versions| && mid.clock == w.clock
    ensures mid.publications == w.publications && mid.worker.data == Latest(spec, mid)
    ensures Pending(mid.worker.data) == Pending(WithPending(spec, Latest(spec, w), candidate))
  {
    var decided := Decided(spec, w, candidate, details);
    DecidingDecides(spec, w, candidate, details);
    mid := Next(spec, decided, Save(Acknowledged)).value;
    RunOneMore(spec, w, Deciding(w, candidate, details), decided, Save(Acknowledged), mid);
  }

  lemma FinishingPublishes(spec: RotationSpec, w: World, details: Details) returns (end: World)
    requires |spec.usernames| > 0 && w.worker.Saved? && w.worker.version == |w.versions|
    requires w.worker.data == Latest(spec, w)
    ensures Run(spec, w, Finishing(details)) == Some(end)
    ensures end.publications == w.publications + [Publication(Pending(w.worker.data), w.clock)]
    ensures end.versions != [] && Latest(spec, end) == Promoted(w.worker.data, details, w.clock)
  {
    var reset := Next(spec, w, Modify(Acknowledged)).value;
    var stamped := Next(spec, reset, Stamp(details)).value;
    end := Next(spec, stamped, Publish(Acknowledged)).value;
    assert Run(spec, stamped, [Publish(Acknowledged)]) == Some(end);
    assert Run(spec, reset, [Stamp(details), Publish(Acknowledged)]) == Some(end) by {
      RunAppend(spec, reset, [Stamp(details)], [Publish(Acknowledged)]);
    }
    RunAppend(spec, w, [Modify(Acknowledged)], [Stamp(details), Publish(Acknowledged)]);
  }

  lemma DuePassPublishes(spec: RotationSpec, w: World, candidate: string, details: Details) returns (end: World)
    requires |spec.usernames| > 0 && !Latest(spec, w).stamp.Unparsable? && |candidate| > 0
    requires Due(spec, Latest(spec, w), w.clock)
    ensures Run(spec, w, Uninterrupted(w, candidate, details)) == Some(end)
    ensures end.publications ==
            w.publications + [Publication(Pending(WithPending(spec, Latest(spec, w), candidate)), w.clock)]
    ensures !HasPending(spec, Latest(spec, end))
  {
    var mid := SavingSaves(spec, w, candidate, details);
    end := FinishingPublishes(spec, mid, details);
    RunAppend(spec, w, Deciding(w, candidate, details) + [Save(Acknowledged)], Finishing(details));
  }

  lemma UninterruptedPublishes(spec: RotationSpec, w: World, candidate: string, details: Details) returns (end: World)
    requires ValidSpec(spec) && Inv(spec, w) && HasPending(spec, Latest(spec, w)) && |candidate| > 0
    ensures Run(spec, w, Uninterrupted(w, candidate, details)) == Some(end)
    ensures end.publications == w.publications + [Publication(Pending(Latest(spec, w)), w.clock)]
    ensures !HasPending(spec, Latest(spec, end))
  {
    end := DuePassPublishes(spec, w, candidate, details);
  }

  // ---------------------------------------------------------------- rotations take place

  /** What makes a pass rotate, and which pair it then publishes, key by key. */
  lemma RotationWrittenOut(spec: RotationSpec, data: SecretData, now: int, candidate: string)
    requires ValidSpec(spec)
    ensures var pending := && data.pendingUser.Some? && data.pendingUser.value in spec.usernames
                           && data.pendingPassword.Some? && data.pendingPassword.value != "";
            && (!data.stamp.Unparsable? ==>
                  (Due(spec, data, now) <==>
                    || pending || data.stamp == NeverStamped || data.stamp == StampedAt(0)
                    || (data.stamp.StampedAt? && data.stamp.time + spec.interval <= now)))
            && Pending(WithPending(spec, data, candidate)) ==
               if pending then Credential(data.pendingUser.value, data.pendingPassword.value)
               else if data.username == Some(spec.usernames[0]) then Credential(spec.usernames[1], candidate)
               else Credential(spec.usernames[0], candidate)
  {
    NextUsernameAlternates(spec, 0);
    NextUsernameAlternates(spec, 1);
    if Value(data.username) !in spec.usernames {
      NextUsernameOfAnother(spec, Value(data.username));
    }
  }

  lemma NextUsernameOfAnother(spec: RotationSpec, name: string)
    requires ValidSpec(spec) && name !in spec.usernames
    ensures NextUsername(spec, name) == spec.usernames[0]
  {
  }

  /** In a reachable state the time alone decides whether a rotation is due. */
  lemma DueFromTheDeadlineOn(spec: RotationSpec, w: World)
    requires ValidSpec(spec) && Inv(spec, w)
    ensures Due(spec, Latest(spec, w), w.clock) <==>
            w.publications == [] || w.publications[|w.publications| - 1].at + spec.interval <= w.clock
  {
    if w.publications != [] {
      assert w.publications[|w.publications| - 1].at > 0;
    }
  }

  lemma DecidedIsExclusive(spec: RotationSpec, w: World, candidate: string, details: Details)
    requires |spec.usernames| > 0 && !Latest(spec, w).stamp.Unparsable? && |candidate| > 0
    ensures Run(spec, w, Uninterrupted(w, candidate, details)).Some? ==> Due(spec, Latest(spec, w), w.clock)
    ensures var refreshed := Run(spec, w, Refreshing(w, candidate, details));
            && (refreshed.Some? <==> !Due(spec, Latest(spec, w), w.clock))
            && (refreshed.Some? ==> refreshed.value.publications == w.publications)
  {
    var decided := Decided(spec, w, candidate, details);
    DecidingDecides(spec, w, candidate, details);
    RunAppend(spec, w, Deciding(w, candidate, details), [Refresh(Acknowledged)]);
    RunAppend(spec, w, Deciding(w, candidate, details), [Save(Acknowledged)]);
    RunAppend(spec, w, Deciding(w, candidate, details) + [Save(Acknowledged)], Finishing(details));
    if Due(spec, Latest(spec, w), w.clock) {
      assert Next(spec, decided, Refresh(Acknowledged)).None?;
    } else {
      var end := Next(spec, decided, Refresh(Acknowledged)).value;
      assert Run(spec, end, []) == Some(end);
      assert Next(spec, decided, Save(Acknowledged)).None?;
    }
  }

  /** From every reachable state, a pass without faults publishes the next pair if and only if nothing was published yet
      or the interval since the last publication has passed. It is for the user whose turn it is, with the password that
      is pending, or with a new one. */
  lemma PassPublishesFromTheDeadlineOn(spec: RotationSpec, w: World, candidate: string, details: Details)
    requires ValidSpec(spec) && Reachable(spec, w) && |candidate| > 0
    ensures var n, latest := |w.publications|, Latest(spec, w);
            var rotated := Run(spec, w, Uninterrupted(w, candidate, details));
            var refreshed := Run(spec, w, Refreshing(w, candidate, details));
            var pending := && latest.pendingUser.Some? && latest.pendingUser.value in spec.usernames
                           && latest.pendingPassword.Some? && latest.pendingPassword.value != "";
            var password := if pending then latest.pendingPassword.value else candidate;
            && (rotated.Some? <==> n == 0 || w.publications[n - 1].at + spec.interval <= w.clock)
            && (refreshed.Some? <==> rotated.None?)
            && (rotated.Some? ==>
                  rotated.value.publications ==
                  w.publications + [Publication(Credential(spec.usernames[n % 2], password), w.clock)])
            && (refreshed.Some? ==> refreshed.value.publications == w.publications)
  {
    ReachableInv(spec, w);
    DueFromTheDeadlineOn(spec, w);
    DecidedIsExclusive(spec, w, candidate, details);
    RotationWrittenOut(spec, Latest(spec, w), w.clock, candidate);
    if Due(spec, Latest(spec, w), w.clock) {
      var end := DuePassPublishes(spec, w, candidate, details);
      RunKeepsInv(spec, w, Uninterrupted(w, candidate, details), end);
      assert end.publications[|w.publications|].credential.username == spec.usernames[|w.publications| % 2];
    }
  }

  /** Interrupted or not, a rotation ends with the same credentials in the Secret and at Aiven. */
  lemma InterruptionsDoNotShow(spec: RotationSpec, w: World, actions: seq<Action>, end: World, candidate: string,
      details: Details)
    requires ValidSpec(spec) && Reachable(spec, w) && HasPending(spec, Latest(spec, w)) && |candidate| > 0
    requires Run(spec, w, actions) == Some(end)
    requires |end.publications| == |w.publications| + 1 && !HasPending(spec, Latest(spec, end))
    ensures Run(spec, w, Uninterrupted(w, candidate, details)).Some?
    ensures var clean := Run(spec, w, Uninterrupted(w, candidate, details)).value;
            && Latest(spec, end).username == Latest(spec, clean).username
            && Latest(spec, end).password == Latest(spec, clean).password
            && end.accepted == clean.accepted
  {
    ReachableInv(spec, w);
    RunKeepsInv(spec, w, actions, end);
    RunResumes(spec, w, w, actions, end);
    var clean := UninterruptedPublishes(spec, w, candidate, details);
    RunKeepsInv(spec, w, Uninterrupted(w, candidate, details), clean);
    RunResumes(spec, w, w, Uninterrupted(w, candidate, details), clean);
  }
}
