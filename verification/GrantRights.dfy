/** What grants mean at the service, and what remains there over runs of changing specs. */
module GrantRights {
  import opened Base
  import opened GrantStatements
  import opened Slices

  /** One tuple of a grant. Without a column the privilege is for the whole table, without a table for the whole
      database. */
  datatype Right =
    | OnObject(grantee: string, privilege: string, column: Option<string>, database: string, table: Option<string>)
    | Member(grantee: string, role: string)

  /** Every right that is held, with whether its holder may pass it on. */
  type Remote = map<Right, bool>

  datatype Grants = Grants(privilegeGrants: seq<Grant>, roleGrants: seq<Grant>)
  {
    function All(): seq<Grant> { privilegeGrants + roleGrants }
  }

  // ---------------------------------------------------------------- executing a statement

  function ColumnsMeant(p: Privilege): set<Option<string>> {
    if p.columns == [] then {None} else set c | c in p.columns :: Some(c)
  }

  function RightsOf(s: Statement): set<Right> {
    match s.subject
    case Privileges(privileges, database, table) =>
      set g, p, c | g in s.grantees && p in privileges && c in ColumnsMeant(p) ::
          OnObject(g, p.name, c, database, table)
    case Roles(roles) =>
      set g, r | g in s.grantees && r in roles :: Member(g, r)
  }

  function Perform(remote: Remote, s: Statement): Remote {
    match s.kind
    case GRANT => map r | r in remote.Keys + RightsOf(s) :: (r in remote && remote[r]) || (r in RightsOf(s) && s.option)
    case REVOKE => remote - RightsOf(s)
  }

  /** What the service answers to one statement; a lost answer is an error for a statement that was executed. */
  datatype Answer = Accepted | Refused(status: int) | Lost(status: int)

  /** The service understands a statement by reading it. */
  function Execute(remote: Remote, sql: string, answer: Answer): Remote {
    match Parse(sql)
    case None => remote
    case Some(s) => if answer.Refused? then remote else Perform(remote, s)
  }

  function ExecuteAll(remote: Remote, statements: seq<string>, answers: seq<Answer>): Remote
    requires |statements| == |answers|
  {
    if statements == [] then remote
    else
      var n := |statements| - 1;
      Execute(ExecuteAll(remote, statements[..n], answers[..n]), statements[n], answers[n])
  }

  function Builder(t: StatementType): Grant -> string {
    g => BuildStatement(t, g)
  }

  function BuildStatements(t: StatementType, grants: seq<Grant>): seq<string> {
    Mapped(grants, Builder(t))
  }

  // ---------------------------------------------------------------- what a list of grants amounts to

  ghost predicate ArePlain(grants: seq<Grant>) {
    forall i | 0 <= i < |grants| :: IsPlain(grants[i])
  }

  function RightsOfGrant(g: Grant): set<Right> {
    RightsOf(StatementOf(GRANT, g))
  }

  function Rights(grants: seq<Grant>): set<Right> {
    if grants == [] then {} else Rights(grants[..|grants| - 1]) + RightsOfGrant(grants[|grants| - 1])
  }

  /** The rights that may be passed on. */
  function Grantable(grants: seq<Grant>): set<Right> {
    if grants == [] then {}
    else
      var last := grants[|grants| - 1];
      Grantable(grants[..|grants| - 1]) + if HasOption(last) then RightsOfGrant(last) else {}
  }

  function WithRights(remote: Remote, rights: set<Right>, grantable: set<Right>): Remote {
    map r | r in remote.Keys + rights :: (r in remote && remote[r]) || r in grantable
  }

  function Granted(remote: Remote, grants: seq<Grant>): Remote {
    WithRights(remote, Rights(grants), Grantable(grants))
  }

  /** The grants whose statements took effect. */
  function Effective(grants: seq<Grant>, answers: seq<Answer>): seq<Grant>
    requires |grants| == |answers|
  {
    if grants == [] then []
    else
      var n := |grants| - 1;
      Effective(grants[..n], answers[..n]) + if answers[n].Refused? then [] else [grants[n]]
  }

  /** What an entry names, tuple by tuple. SELECT and INSERT are for the columns, if there are any, and then not for the
      whole table; all other privileges are for the whole table or, without a table, for the database. */
  ghost predicate Names(g: Grant, r: Right) {
    && (exists i | 0 <= i < |g.grantees| ::
          (if g.grantees[i].user != "" then g.grantees[i].user else g.grantees[i].role) == r.grantee)
    && match g
       case PrivilegeGrant(_, privileges, database, table, columns, _) =>
         && r.OnObject? && r.privilege in privileges && r.database == database
         && r.table == (if table == "" then None else Some(table))
         && (if (r.privilege == "SELECT" || r.privilege == "INSERT") && columns != []
             then r.column.Some? && r.column.value in columns
             else r.column.None?)
       case RoleGrant(_, roles, _) => r.Member? && r.role in roles
  }

  predicate IsGrantable(g: Grant) {
    match g
    case PrivilegeGrant(_, _, _, _, _, withGrantOption) => withGrantOption
    case RoleGrant(_, _, withAdminOption) => withAdminOption
  }

  lemma GranteesAreNamed(g: Grant, grantee: string)
    ensures grantee in GranteeNames(g.grantees) <==>
            exists i | 0 <= i < |g.grantees| ::
              (if g.grantees[i].user != "" then g.grantees[i].user else g.grantees[i].role) == grantee
  {
    var names := GranteeNames(g.grantees);
    forall i | 0 <= i < |g.grantees|
      ensures names[i] == if g.grantees[i].user != "" then g.grantees[i].user else g.grantees[i].role
    {
    }
    if i :| 0 <= i < |g.grantees| &&
            (if g.grantees[i].user != "" then g.grantees[i].user else g.grantees[i].role) == grantee {
      assert names[i] == grantee;
    }
  }

  lemma PrivilegesAreNamed(privileges: seq<string>, columns: seq<string>, name: string, column: Option<string>)
    ensures (exists p :: p in PrivilegesOf(privileges, columns) && p.name == name && column in ColumnsMeant(p)) <==>
            && name in privileges
            && (if (name == "SELECT" || name == "INSERT") && columns != []
                then column.Some? && column.value in columns
                else column.None?)
  {
    var all := PrivilegesOf(privileges, columns);
    forall i | 0 <= i < |privileges|
      ensures all[i].name == privileges[i]
      ensures all[i].columns == if all[i].name == "SELECT" || all[i].name == "INSERT" then columns else []
    {
    }
    if name in privileges {
      var i :| 0 <= i < |privileges| && privileges[i] == name;
      assert all[i] in all;
    }
  }

  /** The rights of an entry are exactly the tuples that it names. */
  lemma RightsAreNamed(g: Grant, r: Right)
    ensures r in RightsOfGrant(g) <==> Names(g, r)
  {
    GranteesAreNamed(g, r.grantee);
    if g.PrivilegeGrant? && r.OnObject? {
      PrivilegesAreNamed(g.privileges, g.columns, r.privilege, r.column);
      var s := StatementOf(GRANT, g);
      if Names(g, r) {
        var p :| p in s.subject.privileges && p.name == r.privilege && r.column in ColumnsMeant(p);
        assert r.grantee in s.grantees;
      }
    }
  }

  ghost predicate Named(grants: seq<Grant>, r: Right) {
    exists i | 0 <= i < |grants| :: Names(grants[i], r)
  }

  ghost predicate NamedGrantable(grants: seq<Grant>, r: Right) {
    exists i | 0 <= i < |grants| :: Names(grants[i], r) && IsGrantable(grants[i])
  }

  /** One of the entries whose statements were not refused names it. */
  ghost predicate NamedEffectively(grants: seq<Grant>, answers: seq<Answer>, r: Right)
    requires |grants| == |answers|
  {
    exists i | 0 <= i < |grants| :: Names(grants[i], r) && !answers[i].Refused?
  }

  lemma NamedStep(grants: seq<Grant>, r: Right)
    requires grants != []
    ensures var front, last := grants[..|grants| - 1], grants[|grants| - 1];
            && (Named(grants, r) <==> Named(front, r) || Names(last, r))
            && (NamedGrantable(grants, r) <==> NamedGrantable(front, r) || (Names(last, r) && IsGrantable(last)))
  {
    var front := grants[..|grants| - 1];
    assert forall i | 0 <= i < |front| :: front[i] == grants[i];
  }

  lemma NamedEffectivelyStep(grants: seq<Grant>, answers: seq<Answer>, r: Right)
    requires |grants| == |answers| && grants != []
    ensures var n := |grants| - 1;
            NamedEffectively(grants, answers, r) <==>
            NamedEffectively(grants[..n], answers[..n], r) || (Names(grants[n], r) && !answers[n].Refused?)
  {
    var n := |grants| - 1;
    assert forall i | 0 <= i < n :: grants[..n][i] == grants[i] && answers[..n][i] == answers[i];
  }

  /** A list of entries amounts to everything that one of them names, and may be passed on if one of them says so. */
  lemma {:induction false} RightsMeaning(grants: seq<Grant>, r: Right)
    ensures r in Rights(grants) <==> Named(grants, r)
    ensures r in Grantable(grants) <==> NamedGrantable(grants, r)
    decreases |grants|
  {
    if grants != [] {
      RightsMeaning(grants[..|grants| - 1], r);
      RightsAreNamed(grants[|grants| - 1], r);
      NamedStep(grants, r);
    }
  }

  /** Granting adds the rights that are named, with their options, and takes nothing away. */
  lemma GrantedMeaning(remote: Remote, grants: seq<Grant>, r: Right)
    ensures r in Granted(remote, grants) <==> r in remote || Named(grants, r)
    ensures r in Granted(remote, grants) ==>
              (Granted(remote, grants)[r] <==> (r in remote && remote[r]) || NamedGrantable(grants, r))
  {
    RightsMeaning(grants, r);
    GrantableAreRights(grants);
  }

  /** The entries whose statements took effect name what one of them names. */
  lemma {:induction false} EffectiveMeaning(grants: seq<Grant>, answers: seq<Answer>, r: Right)
    requires |grants| == |answers|
    ensures r in Rights(Effective(grants, answers)) <==> NamedEffectively(grants, answers, r)
    decreases |grants|
  {
    if grants != [] {
      var n := |grants| - 1;
      EffectiveMeaning(grants[..n], answers[..n], r);
      EffectiveStep(grants, answers);
      RightsAppend(Effective(grants[..n], answers[..n]), grants[n]);
      RightsAreNamed(grants[n], r);
      NamedEffectivelyStep(grants, answers, r);
    }
  }

  lemma {:induction false} GrantableAreRights(grants: seq<Grant>)
    ensures Grantable(grants) <= Rights(grants)
    decreases |grants|
  {
    if grants != [] {
      GrantableAreRights(grants[..|grants| - 1]);
    }
  }

  /** A revoke names exactly the tuples that the grant of the same entry names, read back from what was written. */
  lemma RevokeDenotesGrant(g: Grant)
    requires IsPlain(g)
    ensures Parse(BuildStatement(REVOKE, g)).Some? && Parse(BuildStatement(GRANT, g)).Some?
    ensures RightsOf(Parse(BuildStatement(REVOKE, g)).value) == RightsOf(Parse(BuildStatement(GRANT, g)).value) ==
            RightsOfGrant(g)
    ensures Parse(BuildStatement(GRANT, g)).value.option == HasOption(g)
  {
    RoundTrip(REVOKE, g);
    RoundTrip(GRANT, g);
  }

  lemma ExecuteRevoke(remote: Remote, g: Grant, answer: Answer)
    requires IsPlain(g)
    ensures Execute(remote, BuildStatement(REVOKE, g), answer) ==
            if answer.Refused? then remote else remote - RightsOfGrant(g)
  {
    RoundTrip(REVOKE, g);
    assert RightsOf(StatementOf(REVOKE, g)) == RightsOfGrant(g);
  }

  lemma ExecuteGrant(remote: Remote, g: Grant, answer: Answer)
    requires IsPlain(g)
    ensures Execute(remote, BuildStatement(GRANT, g), answer) ==
            if answer.Refused? then remote else Granted(remote, [g])
  {
    var s := StatementOf(GRANT, g);
    assert Execute(remote, BuildStatement(GRANT, g), answer) ==
           if answer.Refused? then remote else Perform(remote, s) by {
      RoundTrip(GRANT, g);
    }
    PerformGrant(remote, s);
    SingleGrant(remote, g);
  }

  lemma SingleGrant(remote: Remote, g: Grant)
    ensures Granted(remote, [g]) == WithRights(remote, RightsOfGrant(g), if HasOption(g) then RightsOfGrant(g) else {})
  {
    RightsAppend([], g);
    assert [] + [g] == [g];
  }

  lemma PerformGrant(remote: Remote, s: Statement)
    requires s.kind.GRANT?
    ensures Perform(remote, s) == WithRights(remote, RightsOf(s), if s.option then RightsOf(s) else {})
  {
  }

  lemma {:induction false} RightsAppend(grants: seq<Grant>, g: Grant)
    ensures Rights(grants + [g]) == Rights(grants) + RightsOfGrant(g)
    ensures Grantable(grants + [g]) == Grantable(grants) + if HasOption(g) then RightsOfGrant(g) else {}
  {
    assert (grants + [g])[..|grants|] == grants;
  }

  lemma WithRightsTwice(
    remote: Remote, rights: set<Right>, grantable: set<Right>, rights': set<Right>, grantable': set<Right>)
    requires grantable <= rights
    ensures WithRights(WithRights(remote, rights, grantable), rights', grantable') ==
            WithRights(remote, rights + rights', grantable + grantable')
  {
  }

  lemma GrantedTwice(remote: Remote, grants: seq<Grant>, g: Grant)
    ensures Granted(Granted(remote, grants), [g]) == Granted(remote, grants + [g])
  {
    SingleGrant(Granted(remote, grants), g);
    RightsAppend(grants, g);
    GrantableAreRights(grants);
    WithRightsTwice(remote, Rights(grants), Grantable(grants),
                    RightsOfGrant(g), if HasOption(g) then RightsOfGrant(g) else {});
  }

  lemma EffectiveStep(grants: seq<Grant>, answers: seq<Answer>)
    requires |grants| == |answers| && grants != []
    ensures var n := |grants| - 1; var front := Effective(grants[..n], answers[..n]);
            Effective(grants, answers) == if answers[n].Refused? then front else front + [grants[n]]
  {
  }

  lemma MinusTwice(remote: Remote, a: set<Right>, b: set<Right>)
    ensures remote - a - b == remote - (a + b)
  {
  }

  /** Executing written statements revokes what was not refused. */
  lemma {:induction false} RevokesWork(remote: Remote, grants: seq<Grant>, answers: seq<Answer>)
    requires ArePlain(grants) && |grants| == |answers|
    ensures ExecuteAll(remote, BuildStatements(REVOKE, grants), answers) == remote - Rights(Effective(grants, answers))
    decreases |grants|
  {
    if grants != [] {
      var n := |grants| - 1;
      RevokesWork(remote, grants[..n], answers[..n]);
      MappedFront(grants, Builder(REVOKE));
      var effective := Effective(grants[..n], answers[..n]);
      ExecuteRevoke(remote - Rights(effective), grants[n], answers[n]);
      EffectiveStep(grants, answers);
      RightsAppend(effective, grants[n]);
      MinusTwice(remote, Rights(effective), RightsOfGrant(grants[n]));
    }
  }

  /** And grants what was not refused. */
  lemma {:induction false} GrantsWork(remote: Remote, grants: seq<Grant>, answers: seq<Answer>)
    requires ArePlain(grants) && |grants| == |answers|
    ensures ExecuteAll(remote, BuildStatements(GRANT, grants), answers) == Granted(remote, Effective(grants, answers))
    decreases |grants|
  {
    if grants == [] {
      assert Granted(remote, []) == remote;
    } else {
      var n := |grants| - 1;
      GrantsWork(remote, grants[..n], answers[..n]);
      MappedFront(grants, Builder(GRANT));
      var effective := Effective(grants[..n], answers[..n]);
      ExecuteGrant(Granted(remote, effective), grants[n], answers[n]);
      EffectiveStep(grants, answers);
      GrantedTwice(remote, effective, grants[n]);
    }
  }

  // ---------------------------------------------------------------- applying specs

  /** The remote rights, and the grants in the status that the next apply revokes first. */
  datatype World = World(remote: Remote, state: Option<seq<Grant>>)

  function Applied(w: World): seq<Grant> {
    if w.state.None? then [] else w.state.value
  }

  /** An apply in which every statement is accepted. */
  function Apply(w: World, spec: seq<Grant>): World {
    World(Granted(w.remote - Rights(Applied(w)), spec), Some(spec))
  }

  function ApplyAll(w: World, specs: seq<seq<Grant>>): World {
    if specs == [] then w else Apply(ApplyAll(w, specs[..|specs| - 1]), specs[|specs| - 1])
  }

  /** Everything that specs ever named. */
  function Ever(w: World, specs: seq<seq<Grant>>): set<Right> {
    if specs == [] then Rights(Applied(w)) else Ever(w, specs[..|specs| - 1]) + Rights(specs[|specs| - 1])
  }

  lemma RevokeUndoesGrant(remote: Remote, grants: seq<Grant>)
    ensures Granted(remote, grants) - Rights(grants) == remote - Rights(grants)
  {
    GrantableAreRights(grants);
  }

  /** Over any run of applies nothing of an earlier spec survives: the service holds what it held in the beginning
      without everything that any earlier spec named, and the last spec on top. */
  lemma {:induction false} OnlyTheLastSpecRemains(w: World, specs: seq<seq<Grant>>)
    requires specs != []
    ensures ApplyAll(w, specs) ==
            World(Granted(w.remote - Ever(w, specs[..|specs| - 1]), specs[|specs| - 1]), Some(specs[|specs| - 1]))
    decreases |specs|
  {
    var n := |specs| - 1;
    if n > 0 {
      OnlyTheLastSpecRemains(w, specs[..n]);
      OneMoreApply(w.remote, Ever(w, specs[..n][..n - 1]), specs[..n][n - 1], specs[n]);
    }
  }

  lemma {:induction false} EverMeaning(w: World, specs: seq<seq<Grant>>, r: Right)
    ensures r in Ever(w, specs) <==> Named(Applied(w), r) || exists i | 0 <= i < |specs| :: Named(specs[i], r)
    decreases |specs|
  {
    if specs == [] {
      RightsMeaning(Applied(w), r);
    } else {
      var n := |specs| - 1;
      EverMeaning(w, specs[..n], r);
      RightsMeaning(specs[n], r);
      assert forall i | 0 <= i < n :: specs[..n][i] == specs[i];
    }
  }

  /** Right by right: after any run of applies a right is held if and only if the last spec names it, or it was held in
      the beginning and nothing that was applied before the last spec names it. The same holds for its grant option. */
  lemma HeldAfterApplies(w: World, specs: seq<seq<Grant>>, r: Right)
    requires specs != []
    ensures var n, end := |specs| - 1, ApplyAll(w, specs);
            var kept := r in w.remote && !Named(Applied(w), r) && forall i | 0 <= i < n :: !Named(specs[i], r);
            && end.state == Some(specs[n])
            && (r in end.remote <==> Named(specs[n], r) || kept)
            && (r in end.remote ==> (end.remote[r] <==> NamedGrantable(specs[n], r) || (kept && w.remote[r])))
  {
    var n := |specs| - 1;
    OnlyTheLastSpecRemains(w, specs);
    EverMeaning(w, specs[..n], r);
    GrantedMeaning(w.remote - Ever(w, specs[..n]), specs[n], r);
    assert forall i | 0 <= i < n :: specs[..n][i] == specs[i];
  }

  lemma OneMoreApply(remote: Remote, before: set<Right>, previous: seq<Grant>, spec: seq<Grant>)
    ensures Apply(World(Granted(remote - before, previous), Some(previous)), spec) ==
            World(Granted(remote - (before + Rights(previous)), spec), Some(spec))
  {
    RevokeUndoesGrant(remote - before, previous);
    MinusTwice(remote, before, Rights(previous));
  }

  /** In the end the unmanaged rights are held together with those of the last spec, exactly if no earlier spec named an
      unmanaged right that the last one does not. They are also held with the same grant options, exactly if moreover
      the last spec gives the option for each such right that had it. */
  lemma UnmanagedRightsStay(w: World, specs: seq<seq<Grant>>)
    requires specs != [] && w.state.None?
    ensures var last, earlier := specs[|specs| - 1], Ever(w, specs[..|specs| - 1]);
            && (ApplyAll(w, specs).remote.Keys == Granted(w.remote, last).Keys <==>
                w.remote.Keys * earlier <= Rights(last))
            && (ApplyAll(w, specs).remote == Granted(w.remote, last) <==>
                w.remote.Keys * earlier <= Rights(last) &&
                forall r | r in w.remote.Keys * earlier :: w.remote[r] ==> r in Grantable(last))
  {
    OnlyTheLastSpecRemains(w, specs);
    var last := specs[|specs| - 1];
    WithoutEarlier(w.remote, Ever(w, specs[..|specs| - 1]), Rights(last), Grantable(last));
  }

  lemma WithoutEarlier(remote: Remote, earlier: set<Right>, rights: set<Right>, grantable: set<Right>)
    ensures var kept, all := WithRights(remote - earlier, rights, grantable), WithRights(remote, rights, grantable);
            && (kept.Keys == all.Keys <==> remote.Keys * earlier <= rights)
            && (kept == all <==>
                remote.Keys * earlier <= rights && forall r | r in remote.Keys * earlier :: remote[r] ==>
                    r in grantable)
  {
    var kept, all := WithRights(remote - earlier, rights, grantable), WithRights(remote, rights, grantable);
    if kept.Keys == all.Keys {
      forall r | r in remote.Keys * earlier
        ensures r in rights
      {
        assert r in all.Keys;
      }
    }
    if kept == all {
      forall r | r in remote.Keys * earlier && remote[r]
        ensures r in grantable
      {
        assert all[r] && kept[r];
      }
    }
  }

  // ---------------------------------------------------------------- applies that fail half-way

  /** An attempt: the revokes, and the grants unless a revoke failed in a way that is not tolerated. The status
      does not change. */
  function Attempt(w: World, spec: seq<Grant>, revokes: seq<Answer>, grants: Option<seq<Answer>>): (after: World)
    requires |revokes| == |Applied(w)| && (grants.Some? ==> |grants.value| == |spec|)
    ensures after.state == w.state
  {
    var revoked := ExecuteAll(w.remote, BuildStatements(REVOKE, Applied(w)), revokes);
    w.(remote := if grants.None? then revoked else ExecuteAll(revoked, BuildStatements(GRANT, spec), grants.value))
  }

  lemma {:induction false} EffectiveRights(grants: seq<Grant>, answers: seq<Answer>)
    requires |grants| == |answers|
    ensures Rights(Effective(grants, answers)) <= Rights(grants)
    ensures Grantable(Effective(grants, answers)) <= Grantable(grants)
    decreases |grants|
  {
    if grants != [] {
      var n := |grants| - 1;
      EffectiveRights(grants[..n], answers[..n]);
      EffectiveStep(grants, answers);
      RightsAppend(Effective(grants[..n], answers[..n]), grants[n]);
    }
  }

  lemma {:induction false} AllEffective(grants: seq<Grant>, answers: seq<Answer>)
    requires |grants| == |answers| && forall i | 0 <= i < |answers| :: !answers[i].Refused?
    ensures Effective(grants, answers) == grants
    decreases |grants|
  {
    if grants != [] {
      var n := |grants| - 1;
      AllEffective(grants[..n], answers[..n]);
      assert grants == grants[..n] + [grants[n]];
    }
  }

  lemma AttemptIsAbsorbed(w: World, spec: seq<Grant>, revokes: seq<Answer>, grants: Option<seq<Answer>>)
    requires ArePlain(spec) && ArePlain(Applied(w))
    requires |revokes| == |Applied(w)| && (grants.Some? ==> |grants.value| == |spec|)
    ensures Apply(Attempt(w, spec, revokes, grants), spec) == Apply(w, spec)
  {
    var state := Applied(w);
    RevokesWork(w.remote, state, revokes);
    EffectiveRights(state, revokes);
    var revoked := w.remote - Rights(Effective(state, revokes));
    RevokeAbsorbs(w.remote, Rights(Effective(state, revokes)), Rights(state));
    if grants.Some? {
      GrantsWork(revoked, spec, grants.value);
      EffectiveRights(spec, grants.value);
      var part := Effective(spec, grants.value);
      RegrantAbsorbs(revoked, Rights(part), Grantable(part), Rights(spec), Grantable(spec), Rights(state));
    }
  }

  /** The answers that one attempt meets. */
  datatype Answers = Answers(revokes: seq<Answer>, grants: Option<seq<Answer>>)

  /** One answer for every statement that is sent. */
  predicate Fit(tries: seq<Answers>, revokes: nat, grants: nat) {
    forall i | 0 <= i < |tries| ::
      |tries[i].revokes| == revokes && (tries[i].grants.Some? ==> |tries[i].grants.value| == grants)
  }

  function Attempts(w: World, spec: seq<Grant>, tries: seq<Answers>): (after: World)
    requires Fit(tries, |Applied(w)|, |spec|)
    ensures after.state == w.state
    decreases |tries|
  {
    if tries == [] then w
    else Attempts(Attempt(w, spec, tries[0].revokes, tries[0].grants), spec, tries[1..])
  }

  /** Right by right: an attempt takes away what an accepted revoke names, and adds what an accepted grant names if it
      gets as far as the grants. */
  lemma AttemptMeaning(w: World, spec: seq<Grant>, revokes: seq<Answer>, grants: Option<seq<Answer>>, r: Right)
    requires ArePlain(spec) && ArePlain(Applied(w))
    requires |revokes| == |Applied(w)| && (grants.Some? ==> |grants.value| == |spec|)
    ensures var after := Attempt(w, spec, revokes, grants);
            && after.state == w.state
            && (r in after.remote <==>
                  || (r in w.remote && !NamedEffectively(Applied(w), revokes, r))
                  || (grants.Some? && NamedEffectively(spec, grants.value, r)))
  {
    RevokesWork(w.remote, Applied(w), revokes);
    EffectiveMeaning(Applied(w), revokes, r);
    if grants.Some? {
      var revoked := w.remote - Rights(Effective(Applied(w), revokes));
      GrantsWork(revoked, spec, grants.value);
      EffectiveMeaning(spec, grants.value, r);
    }
  }

  /** Attempts follow each other. */
  lemma {:induction false} OneMoreAttempt(
    w: World, spec: seq<Grant>, tries: seq<Answers>, last: Answers, revokes: nat, grants: nat)
    requires revokes == |Applied(w)| && grants == |spec| && Fit(tries, revokes, grants)
    requires |last.revokes| == revokes && (last.grants.Some? ==> |last.grants.value| == grants)
    ensures Fit(tries + [last], revokes, grants)
    ensures Attempts(w, spec, tries + [last]) == Attempt(Attempts(w, spec, tries), spec, last.revokes, last.grants)
    decreases |tries|
  {
    if tries == [] {
      assert tries + [last] == [last];
      assert Attempts(w, spec, [last]) == Attempt(w, spec, last.revokes, last.grants) by {
        assert [last][1..] == [];
      }
    } else {
      var all, next := tries + [last], Attempt(w, spec, tries[0].revokes, tries[0].grants);
      assert all[0] == tries[0] && all[1..] == tries[1..] + [last];
      OneMoreAttempt(next, spec, tries[1..], last, revokes, grants);
    }
  }

  /** However many attempts for a spec failed, wherever each of them got to, a complete apply of that spec ends as if
      they had not been. The same holds for attempts that succeeded and whose status was lost. */
  lemma {:induction false} RetryConverges(w: World, spec: seq<Grant>, tries: seq<Answers>)
    requires ArePlain(spec) && ArePlain(Applied(w)) && Fit(tries, |Applied(w)|, |spec|)
    ensures Apply(Attempts(w, spec, tries), spec) == Apply(w, spec)
    decreases |tries|
  {
    if tries != [] {
      var next := Attempt(w, spec, tries[0].revokes, tries[0].grants);
      AttemptIsAbsorbed(w, spec, tries[0].revokes, tries[0].grants);
      RetryConverges(next, spec, tries[1..]);
    }
  }

  lemma RevokeAbsorbs(remote: Remote, part: set<Right>, all: set<Right>)
    requires part <= all
    ensures remote - part - all == remote - all
  {
  }

  lemma RegrantAbsorbs(
    remote: Remote, part: set<Right>, partGrantable: set<Right>, all: set<Right>, allGrantable: set<Right>,
    revoked: set<Right>)
    requires part <= all && partGrantable <= allGrantable
    ensures WithRights(WithRights(remote, part, partGrantable) - revoked, all, allGrantable) ==
            WithRights(remote - revoked, all, allGrantable)
  {
  }

  // ---------------------------------------------------------------- tolerated refusals

  /** The code goes on after a revoke that the service refused as a bad request or as not found. */
  function ApplyTolerantly(w: World, spec: seq<Grant>, revokes: seq<Answer>): World
    requires |revokes| == |Applied(w)|
  {
    World(Granted(w.remote - Rights(Effective(Applied(w), revokes)), spec), Some(spec))
  }

  /** Right by right: it leaves what the spec names, and what was held and is named by no revoke that was accepted. */
  lemma ToleratedMeaning(w: World, spec: seq<Grant>, revokes: seq<Answer>, r: Right)
    requires |revokes| == |Applied(w)|
    ensures var end := ApplyTolerantly(w, spec, revokes);
            && end.state == Some(spec)
            && (r in end.remote <==> Named(spec, r) || (r in w.remote && !NamedEffectively(Applied(w), revokes, r)))
  {
    EffectiveMeaning(Applied(w), revokes, r);
    GrantedMeaning(w.remote - Rights(Effective(Applied(w), revokes)), spec, r);
  }

  /** Such an apply leaves the same rights as one without refusals exactly if every right held and named by the previous
      spec is named by a revoke that was not refused, or by the new spec. */
  lemma RefusalsMatter(w: World, spec: seq<Grant>, revokes: seq<Answer>)
    requires |revokes| == |Applied(w)|
    ensures ApplyTolerantly(w, spec, revokes).remote.Keys == Apply(w, spec).remote.Keys <==>
            w.remote.Keys * Rights(Applied(w)) <= Rights(Effective(Applied(w), revokes)) + Rights(spec)
  {
    EffectiveRights(Applied(w), revokes);
    KeysAgree(w.remote.Keys, Rights(Applied(w)), Rights(Effective(Applied(w), revokes)), Rights(spec));
    assert ApplyTolerantly(w, spec, revokes).remote.Keys ==
           w.remote.Keys - Rights(Effective(Applied(w), revokes)) + Rights(spec);
    assert Apply(w, spec).remote.Keys == w.remote.Keys - Rights(Applied(w)) + Rights(spec);
  }

  lemma KeysAgree(held: set<Right>, named: set<Right>, revoked: set<Right>, granted: set<Right>)
    requires revoked <= named
    ensures held - revoked + granted == held - named + granted <==> held * named <= revoked + granted
  {
    var tolerant, strict := held - revoked + granted, held - named + granted;
    if tolerant == strict {
      forall r | r in held * named
        ensures r in revoked + granted
      {
        assert r in tolerant <==> r in strict;
      }
    }
    if held * named <= revoked + granted {
      forall r | r in tolerant
        ensures r in strict
      {
        assert r in held * named || r !in held * named;
      }
    }
  }

  /** A refusal because one grantee is gone keeps the rights of the others: they survive a spec that names none of
      them. */
  lemma RefusedRevokeKeepsOthersRights(database: string, gone: string, other: string)
    ensures var g := PrivilegeGrant([Grantee(gone, ""), Grantee(other, "")], ["SELECT"], database, "", [], false);
            var right := OnObject(other, "SELECT", None, database, None);
            var w := World(map[right := false], Some([g]));
            && IsPlain(g) && right in Rights([g])
            && right in ApplyTolerantly(w, [], [Refused(404)]).remote && right !in Apply(w, []).remote
  {
    var g := PrivilegeGrant([Grantee(gone, ""), Grantee(other, "")], ["SELECT"], database, "", [], false);
    var right := OnObject(other, "SELECT", None, database, None);
    assert IsKeyword("SELECT");
    var s := StatementOf(GRANT, g);
    assert s.grantees[1] == other && s.grantees[1] in s.grantees;
    assert s.subject.privileges[0] == Privilege("SELECT", []) && s.subject.privileges[0] in s.subject.privileges;
    assert right in RightsOf(s);
    assert [g][..0] == [] && Rights([g]) == RightsOfGrant(g);
    assert Effective([g], [Refused(404)]) == [] by { assert [Refused(404)][..0] == []; }
  }
}
