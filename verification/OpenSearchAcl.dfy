/** Deciding whether the access rules an OpenSearch service reports are the desired ones. */
module OpenSearchAcl {

  datatype Rule = Rule(index: string, permission: string)

  datatype Acl = Acl(username: string, rules: seq<Rule>)

  predicate UniqueUsers(acls: seq<Acl>) {
    forall i, j | 0 <= i < j < |acls| :: acls[i].username != acls[j].username
  }

  function Users(acls: seq<Acl>): set<string> {
    set i | 0 <= i < |acls| :: acls[i].username
  }

  /** Same users, each once on both sides, and for each user the same rules in any order. */
  ghost predicate SameAcls(desired: seq<Acl>, actual: seq<Acl>) {
    && UniqueUsers(desired) && UniqueUsers(actual)
    && Users(desired) == Users(actual)
    && forall i, j | 0 <= i < |desired| && 0 <= j < |actual| && desired[i].username == actual[j].username ::
      multiset(desired[i].rules) == multiset(actual[j].rules)
  }

  // ---------------------------------------------------------------- counting users

  lemma FrontUsers(acls: seq<Acl>)
    requires acls != []
    ensures var front, last := acls[..|acls| - 1], acls[|acls| - 1];
            && Users(acls) == Users(front) + {last.username}
            && (UniqueUsers(acls) <==> UniqueUsers(front) && last.username !in Users(front))
  {
    var front, last := acls[..|acls| - 1], acls[|acls| - 1];
    forall i | 0 <= i < |front|
      ensures front[i] == acls[i] && front[i].username in Users(acls)
    {
      assert acls[i].username in Users(acls);
    }
  }

  lemma {:induction false} CountUsers(acls: seq<Acl>)
    ensures |Users(acls)| <= |acls|
    ensures |Users(acls)| == |acls| <==> UniqueUsers(acls)
    decreases |acls|
  {
    if acls != [] {
      var front, last := acls[..|acls| - 1], acls[|acls| - 1];
      FrontUsers(acls);
      CountUsers(front);
      assert last.username in Users(front) ==> Users(acls) == Users(front);
    }
  }

  lemma SubsetOfSameSize<T>(a: set<T>, b: set<T>)
    requires a <= b && |a| == |b|
    ensures a == b
  {
    assert b == a + (b - a);
  }

  /** As many lists on both sides, no user twice in what is reported, and no reported user that is not desired: then
      the users are the same, and none is desired twice. */
  lemma Pigeonhole(desired: seq<Acl>, actual: seq<Acl>)
    requires |desired| == |actual| && UniqueUsers(actual) && Users(actual) <= Users(desired)
    ensures UniqueUsers(desired) && Users(desired) == Users(actual)
  {
    CountUsers(desired);
    CountUsers(actual);
    if |Users(desired)| < |Users(actual)| {
      SubsetIsSmaller(Users(actual), Users(desired));
    }
    SubsetIsSmaller(Users(actual), Users(desired));
    SubsetOfSameSize(Users(actual), Users(desired));
  }

  lemma SubsetIsSmaller<T>(a: set<T>, b: set<T>)
    requires a <= b
    ensures |a| <= |b|
  {
    assert b == a + (b - a);
  }

  // ---------------------------------------------------------------- the comparison

  /** Compares how often each rule occurs on both sides. */
  method ElementsMatch(a: seq<Rule>, b: seq<Rule>) returns (ok: bool)
    ensures ok <==> multiset(a) == multiset(b)
  {
    if |a| != |b| {
      assert |multiset(a)| == |a| && |multiset(b)| == |b|;
      return false;
    }
    var inA: map<Rule, nat> := CountRules(a);
    var inB: map<Rule, nat> := CountRules(b);
    ok := true;
    for i := 0 to |a|
      invariant ok <==> forall j | 0 <= j < i :: multiset(a)[a[j]] == multiset(b)[a[j]]
    {
      var count := if a[i] in inB then inB[a[i]] else 0;
      assert a[i] in a;
      if inA[a[i]] != count {
        ok := false;
      }
    }
    if ok {
      SameCounts(a, b);
    }
  }

  /** Lists of the same length in which every element of the first occurs equally often are permutations of each
      other. */
  lemma SameCounts(a: seq<Rule>, b: seq<Rule>)
    requires |a| == |b| && forall j | 0 <= j < |a| :: multiset(a)[a[j]] == multiset(b)[a[j]]
    ensures multiset(a) == multiset(b)
  {
    forall x | x in multiset(a)
      ensures multiset(a)[x] <= multiset(b)[x]
    {
      assert x in a;
      var j :| 0 <= j < |a| && a[j] == x;
    }
    assert multiset(a) <= multiset(b);
    assert multiset(b) == multiset(a) + (multiset(b) - multiset(a));
    assert |multiset(b) - multiset(a)| == 0;
  }

  method CountRules(rules: seq<Rule>) returns (counts: map<Rule, nat>)
    ensures forall r :: r in counts <==> r in rules
    ensures forall r | r in counts :: counts[r] == multiset(rules)[r]
  {
    counts := map[];
    for i := 0 to |rules|
      invariant forall r :: r in counts <==> r in rules[..i]
      invariant forall r | r in counts :: counts[r] == multiset(rules[..i])[r]
    {
      var r := rules[i];
      assert rules[..i + 1] == rules[..i] + [r];
      assert r !in rules[..i] ==> multiset(rules[..i])[r] == 0;
      counts := counts[r := (if r in counts then counts[r] else 0) + 1];
    }
    assert rules[..|rules|] == rules;
  }

  method BuildAcls(acls: seq<Acl>) returns (sent: seq<Acl>)
    ensures sent == acls
  {
    sent := [];
    for i := 0 to |acls|
      invariant sent == acls[..i]
    {
      var rules: seq<Rule> := [];
      for j := 0 to |acls[i].rules|
        invariant rules == acls[i].rules[..j]
      {
        rules := rules + [acls[i].rules[j]];
      }
      assert rules == acls[i].rules;
      sent := sent + [Acl(acls[i].username, rules)];
    }
  }

  ghost predicate IsEntry(acls: seq<Acl>, user: string, rules: seq<Rule>) {
    exists i | 0 <= i < |acls| :: acls[i].username == user && acls[i].rules == rules
  }

  /** What the map of desired rules holds after a number of entries: the last one of each user. */
  ghost predicate HoldsEntries(rules: map<string, seq<Rule>>, acls: seq<Acl>) {
    && rules.Keys == Users(acls)
    && forall u | u in rules :: IsEntry(acls, u, rules[u])
  }

  lemma UsersAppend(front: seq<Acl>, acl: Acl)
    ensures Users(front + [acl]) == Users(front) + {acl.username}
  {
    var acls := front + [acl];
    assert acls[|front|] == acl;
    forall u | u in Users(front)
      ensures u in Users(acls)
    {
      var i :| 0 <= i < |front| && front[i].username == u;
      assert acls[i] == front[i];
    }
  }

  lemma AddEntry(rules: map<string, seq<Rule>>, front: seq<Acl>, acl: Acl)
    requires HoldsEntries(rules, front)
    ensures HoldsEntries(rules[acl.username := acl.rules], front + [acl])
  {
    var after, acls := rules[acl.username := acl.rules], front + [acl];
    assert acls[|front|] == acl;
    UsersAppend(front, acl);
    forall u | u in after
      ensures IsEntry(acls, u, after[u])
    {
      if u != acl.username {
        assert IsEntry(front, u, rules[u]);
        var k :| 0 <= k < |front| && front[k].username == u && front[k].rules == rules[u];
        assert acls[k] == front[k];
      }
    }
  }

  method DesiredRules(desired: seq<Acl>) returns (rulesOf: map<string, seq<Rule>>)
    ensures HoldsEntries(rulesOf, desired)
  {
    rulesOf := map[];
    for i := 0 to |desired|
      invariant HoldsEntries(rulesOf, desired[..i])
    {
      AddEntry(rulesOf, desired[..i], desired[i]);
      assert desired[..i + 1] == desired[..i] + [desired[i]];
      rulesOf := rulesOf[desired[i].username := desired[i].rules];
    }
    assert desired[..|desired|] == desired;
  }

  /** How far the loop over the reported lists has agreed. */
  ghost predicate AgreesSoFar(rulesOf: map<string, seq<Rule>>, front: seq<Acl>) {
    && UniqueUsers(front) && Users(front) <= rulesOf.Keys
    && forall j | 0 <= j < |front| ::
       front[j].username in rulesOf && multiset(rulesOf[front[j].username]) == multiset(front[j].rules)
  }

  lemma AgreesOneMore(rulesOf: map<string, seq<Rule>>, front: seq<Acl>, acl: Acl)
    requires AgreesSoFar(rulesOf, front) && acl.username !in Users(front)
    requires acl.username in rulesOf && multiset(rulesOf[acl.username]) == multiset(acl.rules)
    ensures AgreesSoFar(rulesOf, front + [acl]) && Users(front + [acl]) == Users(front) + {acl.username}
  {
    UsersAppend(front, acl);
  }

  method OpenSearchACLsMatch(desired: seq<Acl>, actual: seq<Acl>) returns (ok: bool)
    ensures ok <==> SameAcls(desired, actual)
  {
    if |desired| != |actual| {
      CountUsers(desired);
      CountUsers(actual);
      return false;
    }
    var rulesOf := DesiredRules(desired);
    var seen: set<string> := {};
    for i := 0 to |actual|
      invariant AgreesSoFar(rulesOf, actual[..i])
      invariant seen == Users(actual[..i])
    {
      var acl := actual[i];
      if acl.username in seen {
        Repeated(actual, i);
        return false;
      }
      if acl.username !in rulesOf {
        assert acl.username in Users(actual);
        return false;
      }
      var same := ElementsMatch(rulesOf[acl.username], acl.rules);
      if !same {
        Disagrees(desired, actual, i, rulesOf[acl.username]);
        return false;
      }
      AgreesOneMore(rulesOf, actual[..i], acl);
      assert actual[..i + 1] == actual[..i] + [acl];
      seen := seen + {acl.username};
    }
    assert actual[..|actual|] == actual;
    AgreementIsSame(rulesOf, desired, actual);
    ok := true;
  }

  lemma AgreementIsSame(rulesOf: map<string, seq<Rule>>, desired: seq<Acl>, actual: seq<Acl>)
    requires |desired| == |actual| && HoldsEntries(rulesOf, desired) && AgreesSoFar(rulesOf, actual)
    ensures SameAcls(desired, actual)
  {
    Pigeonhole(desired, actual);
    forall i, j | 0 <= i < |desired| && 0 <= j < |actual| && desired[i].username == actual[j].username
      ensures multiset(desired[i].rules) == multiset(actual[j].rules)
    {
      assert IsEntry(desired, desired[i].username, rulesOf[desired[i].username]);
    }
  }

  lemma Disagrees(desired: seq<Acl>, actual: seq<Acl>, j: nat, rules: seq<Rule>)
    requires j < |actual| && IsEntry(desired, actual[j].username, rules) && multiset(rules) != multiset(actual[j].rules)
    ensures !SameAcls(desired, actual)
  {
  }

  lemma Repeated(acls: seq<Acl>, i: nat)
    requires i < |acls| && acls[i].username in Users(acls[..i])
    ensures !UniqueUsers(acls)
  {
    var k :| 0 <= k < |acls[..i]| && acls[..i][k].username == acls[i].username;
    assert acls[k].username == acls[i].username;
  }

  // ---------------------------------------------------------------- reading back

  /** What the service reports for what it was sent: the lists in some order, each with its rules in some order. */
  ghost predicate IsReadBack(sent: seq<Acl>, actual: seq<Acl>, order: seq<nat>) {
    && |order| == |sent| == |actual|
    && (forall i | 0 <= i < |order| :: order[i] < |sent|)
    && (forall i, j | 0 <= i < j < |order| :: order[i] != order[j])
    && forall i | 0 <= i < |order| ::
      actual[i].username == sent[order[i]].username && multiset(actual[i].rules) == multiset(sent[order[i]].rules)
  }

  /** So reading back what an update sent is seen as up to date, exactly if the desired users are unique. */
  lemma ReadBackIsUpToDate(desired: seq<Acl>, actual: seq<Acl>, order: seq<nat>)
    requires IsReadBack(desired, actual, order)
    ensures SameAcls(desired, actual) <==> UniqueUsers(desired)
  {
    if UniqueUsers(desired) {
      forall i, j | 0 <= i < j < |actual|
        ensures actual[i].username != actual[j].username
      {
        assert order[i] != order[j];
        assert desired[order[i]].username != desired[order[j]].username;
      }
      forall u | u in Users(actual)
        ensures u in Users(desired)
      {
        var i :| 0 <= i < |actual| && actual[i].username == u;
        assert desired[order[i]].username == u;
      }
      Pigeonhole(desired, actual);
    }
  }

  /** An update and the next observation, between which the service may reorder what it was sent. */
  method UpdateThenObserve(desired: seq<Acl>, order: seq<nat>, ruleOrders: seq<seq<nat>>) returns (upToDate: bool)
    requires IsPermutation(order, |desired|) && |ruleOrders| == |desired|
    requires forall i | 0 <= i < |order| :: IsPermutation(ruleOrders[i], |desired[order[i]].rules|)
    ensures upToDate <==> UniqueUsers(desired)
  {
    var sent := BuildAcls(desired);
    var reported := Reordered(sent, order, ruleOrders);
    ReorderedIsReadBack(sent, order, ruleOrders);
    upToDate := OpenSearchACLsMatch(desired, reported);
    ReadBackIsUpToDate(desired, reported, order);
  }

  predicate IsPermutation(order: seq<nat>, n: nat) {
    && |order| == n
    && (forall i | 0 <= i < n :: order[i] < n)
    && (forall i, j | 0 <= i < j < n :: order[i] != order[j])
  }

  function ReorderedRules(rules: seq<Rule>, order: seq<nat>): seq<Rule>
    requires IsPermutation(order, |rules|)
  {
    seq(|rules|, i requires 0 <= i < |rules| => rules[order[i]])
  }

  function Reordered(sent: seq<Acl>, order: seq<nat>, ruleOrders: seq<seq<nat>>): seq<Acl>
    requires IsPermutation(order, |sent|) && |ruleOrders| == |sent|
    requires forall i | 0 <= i < |order| :: IsPermutation(ruleOrders[i], |sent[order[i]].rules|)
  {
    seq(|sent|, i requires 0 <= i < |sent| =>
      Acl(sent[order[i]].username, ReorderedRules(sent[order[i]].rules, ruleOrders[i])))
  }

  /** Picking distinct positions takes at most what is there. */
  lemma {:induction false} PickedAreThere(rules: seq<Rule>, order: seq<nat>)
    requires forall i | 0 <= i < |order| :: order[i] < |rules|
    requires forall i, j | 0 <= i < j < |order| :: order[i] != order[j]
    ensures multiset(seq(|order|, i requires 0 <= i < |order| => rules[order[i]])) <= multiset(rules)
    decreases |rules|
  {
    var picked := seq(|order|, i requires 0 <= i < |order| => rules[order[i]]);
    if order != [] {
      var last := |order| - 1;
      var at := order[last];
      var rest := rules[..at] + rules[at + 1..];
      assert rules == rules[..at] + [rules[at]] + rules[at + 1..];
      var moved := seq(last, i requires 0 <= i < last => if order[i] < at then order[i] else order[i] - 1);
      PickedAreThere(rest, moved);
      var front := seq(|moved|, i requires 0 <= i < |moved| => rest[moved[i]]);
      assert picked == front + [rules[at]];
      assert multiset(rules) == multiset(rest) + multiset{rules[at]};
    }
  }

  lemma ReorderedRulesAreSame(rules: seq<Rule>, order: seq<nat>)
    requires IsPermutation(order, |rules|)
    ensures multiset(ReorderedRules(rules, order)) == multiset(rules)
  {
    PickedAreThere(rules, order);
    var picked := ReorderedRules(rules, order);
    assert picked == seq(|order|, i requires 0 <= i < |order| => rules[order[i]]);
    assert multiset(rules) == multiset(picked) + (multiset(rules) - multiset(picked));
    assert |multiset(rules) - multiset(picked)| == 0;
  }

  lemma ReorderedIsReadBack(sent: seq<Acl>, order: seq<nat>, ruleOrders: seq<seq<nat>>)
    requires IsPermutation(order, |sent|) && |ruleOrders| == |sent|
    requires forall i | 0 <= i < |order| :: IsPermutation(ruleOrders[i], |sent[order[i]].rules|)
    ensures IsReadBack(sent, Reordered(sent, order, ruleOrders), order)
  {
    forall i | 0 <= i < |order|
      ensures multiset(Reordered(sent, order, ruleOrders)[i].rules) == multiset(sent[order[i]].rules)
    {
      ReorderedRulesAreSame(sent[order[i]].rules, ruleOrders[i]);
    }
  }
}
