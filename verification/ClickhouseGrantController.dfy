/** The ClickhouseGrant controller: it builds the statements, runs them, and records what it applied. */
module ClickhouseGrantController {
  import opened Base
  import opened GrantStatements
  import opened GrantRights
  import opened Slices

  // ---------------------------------------------------------------- building statements

  lemma {:induction false} EscapeCharsAppend(s: string, c: char)
    ensures EscapeChars(s + [c]) == EscapeChars(s) + EscapeChar(c)
  {
    if s != "" {
      assert (s + [c])[1..] == s[1..] + [c];
      EscapeCharsAppend(s[1..], c);
    }
  }

  /** One pass over the identifier, as the replacer makes it. */
  method EscapeIdentifier(identifier: string) returns (escaped: string)
    ensures escaped == Escape(identifier)
  {
    var out := "";
    for i := 0 to |identifier|
      invariant out == EscapeChars(identifier[..i])
    {
      EscapeCharsAppend(identifier[..i], identifier[i]);
      assert identifier[..i + 1] == identifier[..i] + [identifier[i]];
      out := out + EscapeChar(identifier[i]);
    }
    assert identifier[..|identifier|] == identifier;
    escaped := "`" + out + "`";
  }

  /** Columns are written after SELECT and INSERT only. */
  method ConstructOnePrivilege(privilege: string, columns: seq<string>) returns (part: string)
    ensures part == PrivilegePart(privilege, columns)
  {
    if (privilege == "SELECT" || privilege == "INSERT") && |columns| > 0 {
      var escaped := MapSlice(columns, Escape);
      assert escaped == EscapeList(columns);
      return privilege + ("(" + (Join(escaped) + ")"));
    }
    part := privilege;
  }

  method ConstructPrivilegesPart(privileges: seq<string>, columns: seq<string>) returns (part: string)
    ensures part == Join(PrivilegeParts(privileges, columns))
    ensures forall rest: string | IsPlainPart(privileges) && rest != "" && rest[0] == '`' ::
              ReadsAs(part, privileges, columns, rest)
  {
    var parts: seq<string> := [];
    for i := 0 to |privileges|
      invariant |parts| == i && forall k | 0 <= k < i :: parts[k] == PrivilegePart(privileges[k], columns)
    {
      var one := ConstructOnePrivilege(privileges[i], columns);
      parts := parts + [one];
    }
    assert parts == PrivilegeParts(privileges, columns);
    part := Join(parts);
    forall rest: string | IsPlainPart(privileges) && rest != "" && rest[0] == '`'
      ensures ReadsAs(part, privileges, columns, rest)
    {
      PrivilegesRoundTrip(privileges, columns, rest);
    }
  }

  predicate IsPlainPart(privileges: seq<string>) {
    privileges != [] && forall i | 0 <= i < |privileges| :: IsKeyword(privileges[i])
  }

  method BuildAllStatements(t: StatementType, grants: Grants) returns (statements: seq<string>)
    ensures statements == BuildStatements(t, grants.All())
  {
    statements := MapBoth(grants.privilegeGrants, grants.roleGrants, Builder(t));
  }

  // ---------------------------------------------------------------- what a spec mentions

  ghost predicate NamesGrantee(grants: seq<Grant>, name: string) {
    exists i, j | 0 <= i < |grants| && 0 <= j < |grants[i].grantees| :: UserOrRole(grants[i].grantees[j]) == name
  }

  /** Every user or role that is granted something, once. */
  method CollectGrantees(spec: Grants) returns (names: seq<string>)
    ensures Distinct(names) && forall name :: name in names <==> NamesGrantee(spec.All(), name)
  {
    var all := spec.All();
    var collected: seq<string> := [];
    for i := 0 to |all|
      invariant forall name :: name in collected <==> NamesGrantee(all[..i], name)
    {
      var before := collected;
      for j := 0 to |all[i].grantees|
        invariant forall name :: name in collected <==>
                    name in before || exists k | 0 <= k < j :: UserOrRole(all[i].grantees[k]) == name
      {
        collected := collected + [UserOrRole(all[i].grantees[j])];
      }
      forall name
        ensures name in collected <==> NamesGrantee(all[..i + 1], name)
      {
        NamesGranteeStep(all, i, name);
      }
    }
    assert all[..|all|] == all;
    names := UniqueSliceElements(collected);
  }

  lemma NamesGranteeStep(all: seq<Grant>, i: nat, name: string)
    requires i < |all|
    ensures NamesGrantee(all[..i + 1], name) <==>
            NamesGrantee(all[..i], name) || exists k | 0 <= k < |all[i].grantees| ::
                UserOrRole(all[i].grantees[k]) == name
  {
    assert all[..i + 1] == all[..i] + [all[i]];
    if k :| 0 <= k < |all[i].grantees| && UserOrRole(all[i].grantees[k]) == name {
      assert all[..i + 1][i] == all[i];
    }
    if NamesGrantee(all[..i], name) {
      var a, b :| 0 <= a < i && 0 <= b < |all[..i][a].grantees| && UserOrRole(all[..i][a].grantees[b]) == name;
      assert all[..i + 1][a] == all[..i][a];
    }
  }

  method CollectDatabases(spec: Grants) returns (databases: seq<string>)
    ensures Distinct(databases)
    ensures forall d :: d in databases <==>
            d != "" && exists g :: g in spec.privilegeGrants && g.PrivilegeGrant? && g.database == d
  {
    var collected: seq<string> := [];
    for i := 0 to |spec.privilegeGrants|
      invariant forall d :: d in collected <==>
                  d != "" && exists k | 0 <= k < i ::
                      spec.privilegeGrants[k].PrivilegeGrant? && spec.privilegeGrants[k].database == d
    {
      var g := spec.privilegeGrants[i];
      if g.PrivilegeGrant? && g.database != "" {
        collected := collected + [g.database];
      }
    }
    databases := UniqueSliceElements(collected);
  }

  // ---------------------------------------------------------------- running statements

  const BAD_REQUEST := 400
  const NOT_FOUND := 404

  /** The error the caller sees: the service cannot read every statement. */
  function ErrorOf(sql: string, answer: Answer): Option<int> {
    if Parse(sql).None? then Some(BAD_REQUEST)
    else
      match answer
      case Accepted => None
      case Refused(status) => Some(status)
      case Lost(status) => Some(status)
  }

  function ErrorsOf(statements: seq<string>, answers: seq<Answer>): seq<int>
    requires |statements| == |answers|
  {
    if statements == [] then []
    else
      var n := |statements| - 1;
      var error := ErrorOf(statements[n], answers[n]);
      ErrorsOf(statements[..n], answers[..n]) + if error.Some? then [error.value] else []
  }

  predicate IsTolerated(status: int) {
    status == BAD_REQUEST || status == NOT_FOUND
  }

  /** The error of one statement, written out. */
  predicate Fails(sql: string, answer: Answer, status: int) {
    if Parse(sql).None? then status == 400
    else (answer.Refused? && answer.status == status) || (answer.Lost? && answer.status == status)
  }

  ghost predicate SomeFails(statements: seq<string>, answers: seq<Answer>, status: int)
    requires |statements| == |answers|
  {
    exists i | 0 <= i < |statements| :: Fails(statements[i], answers[i], status)
  }

  lemma SomeFailsStep(statements: seq<string>, answers: seq<Answer>, status: int)
    requires |statements| == |answers| && statements != []
    ensures var n := |statements| - 1;
            SomeFails(statements, answers, status) <==>
            SomeFails(statements[..n], answers[..n], status) || Fails(statements[n], answers[n], status)
  {
    var n := |statements| - 1;
    if SomeFails(statements[..n], answers[..n], status) {
      var i :| 0 <= i < n && Fails(statements[..n][i], answers[..n][i], status);
      assert Fails(statements[i], answers[i], status);
    }
    if SomeFails(statements, answers, status) {
      var i :| 0 <= i <= n && Fails(statements[i], answers[i], status);
      assert i < n ==> Fails(statements[..n][i], answers[..n][i], status);
    }
  }

  lemma {:induction false} ErrorsMeaning(statements: seq<string>, answers: seq<Answer>, status: int)
    requires |statements| == |answers|
    ensures status in ErrorsOf(statements, answers) <==> SomeFails(statements, answers, status)
    decreases |statements|
  {
    if statements != [] {
      var n := |statements| - 1;
      ErrorsMeaning(statements[..n], answers[..n], status);
      SomeFailsStep(statements, answers, status);
    }
  }

  lemma {:induction false} NoErrors(statements: seq<string>, answers: seq<Answer>, i: nat)
    requires |statements| == |answers| && ErrorsOf(statements, answers) == [] && i < |answers|
    ensures answers[i].Accepted? && Parse(statements[i]).Some?
    decreases |answers|
  {
    if i < |answers| - 1 {
      NoErrors(statements[..|statements| - 1], answers[..|statements| - 1], i);
    }
  }

  /** There are errors exactly if a statement was not accepted. */
  lemma NoErrorsExactly(statements: seq<string>, answers: seq<Answer>)
    requires |statements| == |answers|
    ensures ErrorsOf(statements, answers) == [] <==>
            forall i | 0 <= i < |answers| :: answers[i].Accepted? && Parse(statements[i]).Some?
  {
    if ErrorsOf(statements, answers) == [] {
      forall i | 0 <= i < |answers|
        ensures answers[i].Accepted? && Parse(statements[i]).Some?
      {
        NoErrors(statements, answers, i);
      }
    } else {
      var status := ErrorsOf(statements, answers)[0];
      ErrorsMeaning(statements, answers, status);
    }
  }

  /** The first error that is not tolerated. */
  method HardError(errors: seq<int>) returns (error: Option<int>)
    ensures error.None? <==> forall e | e in errors :: IsTolerated(e)
    ensures error.Some? ==> !IsTolerated(error.value) &&
                            exists i | 0 <= i < |errors| ::
                              errors[i] == error.value && forall j | 0 <= j < i :: IsTolerated(errors[j])
  {
    for i := 0 to |errors|
      invariant forall j | 0 <= j < i :: IsTolerated(errors[j])
    {
      if errors[i] == BAD_REQUEST || errors[i] == NOT_FOUND {
        continue;
      }
      assert errors[i] in errors;
      return Some(errors[i]);
    }
    error := None;
  }

  /** What looking the service up gives. */
  datatype Lookup = Operational | NotOperational | LookupFailed

  /** What Observe comes to; a precondition that is not met is tried again, and an error is reported. */
  datatype Observation = UpToDate | NeedsApply(existed: bool) | NotMet | Failed

  /** Every database of a privilege grant is among these. */
  predicate AreThere(spec: Grants, databases: seq<string>) {
    forall g | g in spec.privilegeGrants && g.PrivilegeGrant? && g.database != "" :: g.database in databases
  }

  /** The resource and the service it is applied to. */
  class Controller {
    var remote: Remote
    const spec: Grants
    var state: Option<Grants>
    var processed: bool
    var everApplied: bool
    var running: bool

    constructor (remote: Remote, spec: Grants, state: Option<Grants>)
      ensures this.remote == remote && this.spec == spec && this.state == state && !running && !processed &&
              !everApplied
    {
      this.remote, this.spec, this.state := remote, spec, state;
      running, processed, everApplied := false, false, false;
    }

    ghost function Value(): World
      reads this
    {
      World(remote, if state.None? then None else Some(state.value.All()))
    }

    /** Runs all statements, whatever happens to the earlier ones. */
    method ExecuteStatements(statements: seq<string>, answers: seq<Answer>) returns (errors: seq<int>)
      requires |statements| == |answers|
      modifies this`remote
      ensures remote == ExecuteAll(old(remote), statements, answers)
      ensures errors == ErrorsOf(statements, answers)
    {
      errors := [];
      for i := 0 to |statements|
        invariant remote == ExecuteAll(old(remote), statements[..i], answers[..i])
        invariant errors == ErrorsOf(statements[..i], answers[..i])
      {
        assert statements[..i + 1][..i] == statements[..i] && answers[..i + 1][..i] == answers[..i];
        remote := Execute(remote, statements[i], answers[i]);
        var error := ErrorOf(statements[i], answers[i]);
        if error.Some? {
          errors := errors + [error.value];
        }
      }
      assert statements[..|statements|] == statements && answers[..|answers|] == answers;
    }

    /** Refusals because something is gone do not count; the first other error is returned. */
    method RevokeGrants(grants: Grants, answers: seq<Answer>) returns (error: Option<int>)
      requires |answers| == |grants.All()|
      modifies this`remote
      ensures remote == ExecuteAll(old(remote), BuildStatements(REVOKE, grants.All()), answers)
      // It fails exactly if a statement fails with another status than 400 and 404, and then with such a status.
      ensures error.None? <==>
              forall e | SomeFails(BuildStatements(REVOKE, grants.All()), answers, e) :: e == 400 || e == 404
      ensures error.Some? ==> error.value != 400 && error.value != 404 &&
                              SomeFails(BuildStatements(REVOKE, grants.All()), answers, error.value)
    {
      var statements := BuildAllStatements(REVOKE, grants);
      forall e: int
        ensures e in ErrorsOf(statements, answers) <==> SomeFails(statements, answers, e)
      {
        ErrorsMeaning(statements, answers, e);
      }
      if |statements| == 0 {
        return None;
      }
      var errors := ExecuteStatements(statements, answers);
      error := HardError(errors);
    }

    /** Every error of a grant counts. */
    method GrantSpecGrants(answers: seq<Answer>) returns (ok: bool)
      requires |answers| == |spec.All()|
      modifies this`remote
      ensures remote == ExecuteAll(old(remote), BuildStatements(GRANT, spec.All()), answers)
      ensures ok <==> var statements := BuildStatements(GRANT, spec.All());
                      forall i | 0 <= i < |answers| :: answers[i].Accepted? && Parse(statements[i]).Some?
    {
      var statements := BuildAllStatements(GRANT, spec);
      NoErrorsExactly(statements, answers);
      var errors := ExecuteStatements(statements, answers);
      ok := |errors| == 0;
    }

    /** A failed apply leaves the record of what to revoke alone. A successful one records the spec, and the service
        then holds what it held without the revoked grants, and the spec on top. */
    method ApplyGrants(revokes: seq<Answer>, grants: seq<Answer>) returns (ok: bool, ghost reached: bool)
      requires |revokes| == |Applied(Value())| && |grants| == |spec.All()|
      modifies this`remote, this`state, this`running
      ensures running == ok && (!ok ==> state == old(state))
      ensures ok <==>
                && (forall e | SomeFails(BuildStatements(REVOKE, Applied(old(Value()))), revokes, e) ::
                      e == 400 || e == 404)
                && forall i | 0 <= i < |grants| ::
                     grants[i].Accepted? && Parse(BuildStatements(GRANT, spec.All())[i]).Some?
      ensures !ok ==> Value() == Attempt(old(Value()), spec.All(), revokes, if reached then Some(grants) else None)
      ensures ok && ArePlain(spec.All()) && ArePlain(Applied(old(Value()))) ==>
                Value() == ApplyTolerantly(old(Value()), spec.All(), revokes)
      ensures ok && ArePlain(spec.All()) && ArePlain(Applied(old(Value()))) &&
              (forall i | 0 <= i < |revokes| :: !revokes[i].Refused?) ==>
                Value() == Apply(old(Value()), spec.All())
    {
      running := false;
      reached := false;
      if state.Some? {
        var error := RevokeGrants(state.value, revokes);
        if error.Some? {
          return false, reached;
        }
      } else {
        assert BuildStatements(REVOKE, []) == [];
      }
      reached := true;
      ok := GrantSpecGrants(grants);
      if !ok {
        return;
      }
      AllEffective(spec.All(), grants);
      state := Some(spec);
      running := true;
      if ArePlain(spec.All()) && ArePlain(Applied(old(Value()))) {
        var revoked := ExecuteAll(old(remote), BuildStatements(REVOKE, Applied(old(Value()))), revokes);
        RevokesWork(old(remote), Applied(old(Value())), revokes);
        GrantsWork(revoked, spec.All(), grants);
        if forall i | 0 <= i < |revokes| :: !revokes[i].Refused? {
          AllEffective(Applied(old(Value())), revokes);
        }
      }
    }

    /** Everything the spec mentions must exist before it is applied. */
    method CheckPrecondition(itemsInSpec: seq<string>, itemsInDB: seq<string>) returns (ok: bool)
      ensures ok <==> forall x | x in itemsInSpec :: x in itemsInDB
    {
      var missing := CheckSliceContainment(itemsInSpec, itemsInDB);
      ok := |missing| == 0;
    }

    /** The current generation is up to date once it was applied. Otherwise, everything that the spec names must exist
        before it is applied. */
    method Observe(service: Lookup, grantees: Option<seq<string>>, databases: Option<seq<string>>)
      returns (observation: Observation)
      modifies this`running
      ensures observation.UpToDate? <==> service.Operational? && everApplied && processed
      ensures running == (old(running) || observation.UpToDate?)
      ensures observation.NeedsApply? <==>
                && service.Operational? && !(everApplied && processed)
                && grantees.Some? && (forall name | NamesGrantee(spec.All(), name) :: name in grantees.value)
                && databases.Some? && AreThere(spec, databases.value)
      ensures observation.NeedsApply? ==> observation.existed == everApplied
      ensures observation.Failed? ==> service.LookupFailed? || grantees.None? || databases.None?
    {
      match service {
        case NotOperational => return NotMet;
        case LookupFailed => return Failed;
        case Operational =>
      }
      if everApplied && processed {
        running := true;
        return UpToDate;
      }
      if grantees.None? {
        return Failed;
      }
      var names := CollectGrantees(spec);
      var ok := CheckPrecondition(names, grantees.value);
      if !ok {
        return NotMet;
      }
      if databases.None? {
        return Failed;
      }
      var mentioned := CollectDatabases(spec);
      ok := CheckPrecondition(mentioned, databases.value);
      observation := if ok then NeedsApply(everApplied) else NotMet;
    }
  }
}
