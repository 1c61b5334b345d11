/** GRANT and REVOKE statements: how the operator writes them, and how ClickHouse reads them. */
module GrantStatements {
  import opened Base

  datatype StatementType = GRANT | REVOKE

  datatype Grantee = Grantee(user: string, role: string)

  datatype Grant =
    | PrivilegeGrant(grantees: seq<Grantee>, privileges: seq<string>, database: string, table: string,
                     columns: seq<string>, withGrantOption: bool)
    | RoleGrant(grantees: seq<Grantee>, roles: seq<string>, withAdminOption: bool)

  // ---------------------------------------------------------------- the writer

  function UserOrRole(g: Grantee): string {
    if g.user != "" then g.user else g.role
  }

  function EscapeChar(c: char): string {
    if c == '`' then "\\`" else if c == '\\' then "\\\\" else [c]
  }

  function EscapeChars(s: string): string {
    if s == "" then "" else EscapeChar(s[0]) + EscapeChars(s[1..])
  }

  function Escape(identifier: string): string {
    "`" + EscapeChars(identifier) + "`"
  }

  function EscapeList(identifiers: seq<string>): seq<string> {
    seq(|identifiers|, i requires 0 <= i < |identifiers| => Escape(identifiers[i]))
  }

  function Join(parts: seq<string>): string {
    if parts == [] then "" else if |parts| == 1 then parts[0] else parts[0] + ", " + Join(parts[1..])
  }

  /** Columns apply to SELECT and INSERT only. */
  function ColumnsOf(privilege: string, columns: seq<string>): seq<string> {
    if privilege == "SELECT" || privilege == "INSERT" then columns else []
  }

  function PrivilegePart(privilege: string, columns: seq<string>): string {
    if ColumnsOf(privilege, columns) != [] then privilege + ("(" + (Join(EscapeList(columns)) + ")")) else privilege
  }

  function PrivilegeParts(privileges: seq<string>, columns: seq<string>): seq<string> {
    seq(|privileges|, i requires 0 <= i < |privileges| => PrivilegePart(privileges[i], columns))
  }

  function GranteePart(grantees: seq<Grantee>): string {
    Join(EscapeList(GranteeNames(grantees)))
  }

  function GranteeNames(grantees: seq<Grantee>): seq<string> {
    seq(|grantees|, i requires 0 <= i < |grantees| => UserOrRole(grantees[i]))
  }

  function OnPart(database: string, table: string): string {
    if table != "" then Escape(database) + "." + Escape(table) else Escape(database) + ".*"
  }

  function HasOption(g: Grant): bool {
    if g.PrivilegeGrant? then g.withGrantOption else g.withAdminOption
  }

  function OptionPart(t: StatementType, g: Grant): string {
    if t.REVOKE? || !HasOption(g) then ""
    else if g.PrivilegeGrant? then "WITH GRANT OPTION" else "WITH ADMIN OPTION"
  }

  function Verb(t: StatementType): string {
    if t.GRANT? then "GRANT " else "REVOKE "
  }

  function Preposition(t: StatementType): string {
    if t.GRANT? then " TO " else " FROM "
  }

  function MainPart(g: Grant): string {
    match g
    case PrivilegeGrant(_, privileges, database, table, columns, _) =>
      Join(PrivilegeParts(privileges, columns)) + (" ON " + OnPart(database, table))
    case RoleGrant(_, roles, _) => Join(EscapeList(roles))
  }

  function Concat(parts: seq<string>): string {
    if parts == [] then "" else parts[0] + Concat(parts[1..])
  }

  function BuildStatement(t: StatementType, g: Grant): string {
    Concat([Verb(t), MainPart(g), Preposition(t), GranteePart(g.grantees), " " + OptionPart(t, g)])
  }

  // ---------------------------------------------------------------- what a statement says

  datatype Privilege = Privilege(name: string, columns: seq<string>)

  datatype Subject =
    | Privileges(privileges: seq<Privilege>, database: string, table: Option<string>)
    | Roles(roles: seq<string>)

  datatype Statement = Statement(kind: StatementType, subject: Subject, grantees: seq<string>, option: bool)

  function PrivilegesOf(privileges: seq<string>, columns: seq<string>): seq<Privilege> {
    seq(|privileges|, i requires 0 <= i < |privileges| => Privilege(privileges[i], ColumnsOf(privileges[i], columns)))
  }

  function SubjectOf(g: Grant): Subject {
    match g
    case PrivilegeGrant(_, privileges, database, table, columns, _) =>
      Privileges(PrivilegesOf(privileges, columns), database, if table == "" then None else Some(table))
    case RoleGrant(_, roles, _) => Roles(roles)
  }

  function StatementOf(t: StatementType, g: Grant): Statement {
    Statement(t, SubjectOf(g), GranteeNames(g.grantees), t.GRANT? && HasOption(g))
  }

  // ---------------------------------------------------------------- the reader

  type Parsed<T> = Option<(T, string)>

  function Expect(token: string, s: string): Option<string> {
    if token <= s then Some(s[|token|..]) else None
  }

  /** The rest of a quoted identifier, up to its closing backquote. */
  function ParseQuoted(s: string): Parsed<string> {
    if s == "" then None
    else if s[0] == '`' then Some(("", s[1..]))
    else if s[0] == '\\' then
      if |s| == 1 then None
      else
        match ParseQuoted(s[2..])
        case None => None
        case Some((x, rest)) => Some(([s[1]] + x, rest))
    else
      match ParseQuoted(s[1..])
      case None => None
      case Some((x, rest)) => Some(([s[0]] + x, rest))
  }

  function ParseIdentifier(s: string): Parsed<string> {
    if s != "" && s[0] == '`' then ParseQuoted(s[1..]) else None
  }

  function ParseIdentifiers(s: string): Parsed<seq<string>>
    decreases |s|
  {
    match ParseIdentifier(s)
    case None => None
    case Some((x, rest)) =>
      if ", " <= rest && |rest| < |s| then
        match ParseIdentifiers(rest[2..])
        case None => None
        case Some((xs, rest')) => Some(([x] + xs, rest'))
      else Some(([x], rest))
  }

  predicate IsSpecial(c: char) {
    c == '`' || c == ',' || c == '('
  }

  /** How many characters come before a backquote, a comma or a parenthesis. */
  function KeywordLength(s: string): (n: nat)
    ensures n <= |s|
  {
    if s == "" || IsSpecial(s[0]) then 0 else 1 + KeywordLength(s[1..])
  }

  /** Privileges with their columns, up to " ON " and the quoted name after it. */
  function ParsePrivileges(s: string): Parsed<seq<Privilege>>
    decreases |s|
  {
    var n := KeywordLength(s);
    if n == |s| then None
    else if s[n] == '`' then
      if n >= 4 && s[n - 4..n] == " ON " then Some(([Privilege(s[..n - 4], [])], s[n..])) else None
    else if s[n] == ',' then
      if ", " <= s[n..] then Prepend(Privilege(s[..n], []), ParsePrivileges(s[n + 2..])) else None
    else
      match ParseIdentifiers(s[n + 1..])
      case None => None
      case Some((columns, rest)) =>
        if "), " <= rest && |rest| <= |s| then Prepend(Privilege(s[..n], columns), ParsePrivileges(rest[3..]))
        else if ") ON " <= rest then Some(([Privilege(s[..n], columns)], rest[5..]))
        else None
  }

  function Prepend(p: Privilege, parsed: Parsed<seq<Privilege>>): Parsed<seq<Privilege>> {
    match parsed
    case None => None
    case Some((ps, rest)) => Some(([p] + ps, rest))
  }

  function ParseObject(s: string): Parsed<(string, Option<string>)> {
    match ParseIdentifier(s)
    case None => None
    case Some((database, rest)) =>
      if ".*" <= rest then Some(((database, None), rest[2..]))
      else if "." <= rest then
        match ParseIdentifier(rest[1..])
        case None => None
        case Some((table, rest')) => Some(((database, Some(table)), rest'))
      else None
  }

  function ParseSubject(s: string): Parsed<Subject> {
    if "`" <= s then
      match ParseIdentifiers(s)
      case None => None
      case Some((roles, rest)) => Some((Roles(roles), rest))
    else
      match ParsePrivileges(s)
      case None => None
      case Some((privileges, rest)) =>
        match ParseObject(rest)
        case None => None
        case Some(((database, table), rest')) => Some((Privileges(privileges, database, table), rest'))
  }

  function ParseOption(kind: StatementType, subject: Subject, s: string): Option<bool> {
    if s == "" then Some(false)
    else if kind.GRANT? && s == (if subject.Privileges? then "WITH GRANT OPTION" else "WITH ADMIN OPTION") then
        Some(true)
    else None
  }

  function ParseRest(kind: StatementType, s: string): Option<Statement> {
    match ParseSubject(s)
    case None => None
    case Some((subject, rest)) =>
      match Expect(if kind.GRANT? then " TO " else " FROM ", rest)
      case None => None
      case Some(rest) =>
        match ParseIdentifiers(rest)
        case None => None
        case Some((grantees, rest)) =>
          if !(" " <= rest) then None
          else
            match ParseOption(kind, subject, rest[1..])
            case None => None
            case Some(option) => Some(Statement(kind, subject, grantees, option))
  }

  function Parse(s: string): Option<Statement> {
    if "GRANT " <= s then ParseRest(GRANT, s[6..]) else if "REVOKE " <= s then ParseRest(REVOKE, s[7..]) else None
  }

  // ---------------------------------------------------------------- reading what was written

  /** A privilege that is a keyword: it holds no character that starts a quoted name, a list or the next privilege. */
  predicate IsKeyword(s: string) {
    forall i | 0 <= i < |s| :: !IsSpecial(s[i])
  }

  /** Identifiers may hold any characters. */
  predicate IsPlain(g: Grant) {
    && g.grantees != []
    && (g.PrivilegeGrant? ==> g.privileges != [] && forall i | 0 <= i < |g.privileges| :: IsKeyword(g.privileges[i]))
    && (g.RoleGrant? ==> g.roles != [])
  }

  lemma {:induction false} QuotedRoundTrip(x: string, rest: string)
    ensures ParseQuoted(EscapeChars(x) + "`" + rest) == Some((x, rest))
    decreases |x|
  {
    if x == "" {
      assert EscapeChars(x) + "`" + rest == "`" + rest;
    } else {
      QuotedRoundTrip(x[1..], rest);
      var tail := EscapeChars(x[1..]) + "`" + rest;
      assert EscapeChars(x) + "`" + rest == EscapeChar(x[0]) + tail;
      EscapedCharIsRead(x[0], tail);
      assert [x[0]] + x[1..] == x;
    }
  }

  lemma EscapedCharIsRead(c: char, tail: string)
    ensures ParseQuoted(EscapeChar(c) + tail) ==
            match ParseQuoted(tail) { case None => None case Some((x, rest)) => Some(([c] + x, rest)) }
  {
    var s := EscapeChar(c) + tail;
    assert s[|EscapeChar(c)|..] == tail;
  }

  lemma IdentifierRoundTrip(x: string, rest: string)
    ensures ParseIdentifier(Escape(x) + rest) == Some((x, rest))
  {
    QuotedRoundTrip(x, rest);
    assert (Escape(x) + rest)[1..] == EscapeChars(x) + "`" + rest;
  }

  lemma {:induction false} IdentifiersRoundTrip(xs: seq<string>, rest: string)
    requires xs != [] && !(", " <= rest)
    ensures ParseIdentifiers(Join(EscapeList(xs)) + rest) == Some((xs, rest))
    decreases |xs|
  {
    var s := Join(EscapeList(xs)) + rest;
    if |xs| == 1 {
      assert s == Escape(xs[0]) + rest;
      IdentifierRoundTrip(xs[0], rest);
      assert xs == [xs[0]];
    } else {
      assert EscapeList(xs)[1..] == EscapeList(xs[1..]);
      var tail := Join(EscapeList(xs[1..])) + rest;
      JoinStep(EscapeList(xs), rest);
      IdentifierRoundTrip(xs[0], ", " + tail);
      assert (", " + tail)[2..] == tail;
      IdentifiersRoundTrip(xs[1..], rest);
      assert [xs[0]] + xs[1..] == xs;
    }
  }

  lemma {:induction false} KeywordThenSpecial(keyword: string, rest: string)
    requires IsKeyword(keyword) && rest != "" && IsSpecial(rest[0])
    ensures KeywordLength(keyword + rest) == |keyword|
    decreases |keyword|
  {
    if keyword == "" {
      assert keyword + rest == rest;
    } else {
      KeywordThenSpecial(keyword[1..], rest);
      assert (keyword + rest)[1..] == keyword[1..] + rest;
    }
  }

  lemma PlainPrivilegeAtEnd(privilege: string, rest: string)
    requires IsKeyword(privilege) && rest != "" && rest[0] == '`'
    ensures ParsePrivileges(privilege + (" ON " + rest)) == Some(([Privilege(privilege, [])], rest))
  {
    var s := privilege + (" ON " + rest);
    assert s == (privilege + " ON ") + rest;
    KeywordThenSpecial(privilege + " ON ", rest);
    var n := |privilege| + 4;
    assert KeywordLength(s) == n && s[n] == '`' && s[n..] == rest;
    assert s[..n - 4] == privilege && s[n - 4..n] == " ON ";
  }

  /** With columns, reading goes on after the opening parenthesis. */
  lemma ColumnsAreRead(privilege: string, columns: seq<string>, tail: string)
    requires IsKeyword(privilege) && columns != [] && tail != "" && tail[0] == ')'
    ensures var s := privilege + ("(" + (Join(EscapeList(columns)) + tail)); var n := |privilege|;
            && KeywordLength(s) == n && s[n] == '(' && s[..n] == privilege
            && ParseIdentifiers(s[n + 1..]) == Some((columns, tail))
  {
    var list := Join(EscapeList(columns)) + tail;
    var s := privilege + ("(" + list);
    KeywordThenSpecial(privilege, "(" + list);
    assert s[|privilege| + 1..] == list;
    IdentifiersRoundTrip(columns, tail);
  }

  lemma Regroup(a: string, b: string, x: string)
    ensures a + ("(" + (b + ")")) + x == a + ("(" + (b + (")" + x)))
  {
  }

  lemma ClosingOn(rest: string)
    ensures var tail := ")" + (" ON " + rest);
            && !("), " <= tail) && ") ON " <= tail
            && tail[5..] == rest && tail[0] == ')'
  {
    assert (")" + (" ON " + rest))[1] == ' ';
  }

  /** The last privilege. */
  lemma PrivilegeAtEnd(privilege: string, columns: seq<string>, rest: string)
    requires IsKeyword(privilege) && rest != "" && rest[0] == '`'
    ensures ParsePrivileges(PrivilegePart(privilege, columns) + (" ON " + rest)) ==
            Some(([Privilege(privilege, ColumnsOf(privilege, columns))], rest))
  {
    if ColumnsOf(privilege, columns) == [] {
      PlainPrivilegeAtEnd(privilege, rest);
    } else {
      ClosingOn(rest);
      var tail := ")" + (" ON " + rest);
      ColumnsAreRead(privilege, columns, tail);
      Regroup(privilege, Join(EscapeList(columns)), " ON " + rest);
    }
  }

  lemma PlainPrivilegeAtComma(privilege: string, rest: string)
    requires IsKeyword(privilege)
    ensures ParsePrivileges(privilege + (", " + rest)) == Prepend(Privilege(privilege, []), ParsePrivileges(rest))
  {
    var s := privilege + (", " + rest);
    KeywordThenSpecial(privilege, ", " + rest);
    var n := |privilege|;
    assert KeywordLength(s) == n && s[n] == ',' && s[n..] == ", " + rest;
    assert s[..n] == privilege && s[n + 2..] == rest;
  }

  lemma ClosingComma(rest: string)
    ensures var tail := ")" + (", " + rest); "), " <= tail && tail[3..] == rest && tail[0] == ')'
  {
  }

  /** A privilege with another one after it. */
  lemma PrivilegeAtComma(privilege: string, columns: seq<string>, rest: string)
    requires IsKeyword(privilege)
    ensures ParsePrivileges(PrivilegePart(privilege, columns) + (", " + rest)) ==
            Prepend(Privilege(privilege, ColumnsOf(privilege, columns)), ParsePrivileges(rest))
  {
    if ColumnsOf(privilege, columns) == [] {
      PlainPrivilegeAtComma(privilege, rest);
    } else {
      ClosingComma(rest);
      ColumnsAreRead(privilege, columns, ")" + (", " + rest));
      Regroup(privilege, Join(EscapeList(columns)), ", " + rest);
    }
  }

  lemma JoinStep(parts: seq<string>, rest: string)
    requires |parts| > 1
    ensures Join(parts) + rest == parts[0] + (", " + (Join(parts[1..]) + rest))
  {
  }

  lemma PrivilegesOfStep(privileges: seq<string>, columns: seq<string>)
    requires privileges != []
    ensures PrivilegeParts(privileges, columns)[1..] == PrivilegeParts(privileges[1..], columns)
    ensures PrivilegesOf(privileges, columns) ==
            [Privilege(privileges[0], ColumnsOf(privileges[0], columns))] + PrivilegesOf(privileges[1..], columns)
  {
  }

  lemma {:induction false} PrivilegesRoundTrip(privileges: seq<string>, columns: seq<string>, rest: string)
    requires privileges != [] && forall i | 0 <= i < |privileges| :: IsKeyword(privileges[i])
    requires rest != "" && rest[0] == '`'
    ensures ParsePrivileges(Join(PrivilegeParts(privileges, columns)) + (" ON " + rest)) ==
            Some((PrivilegesOf(privileges, columns), rest))
    // Read back, SELECT and INSERT have the columns, and no other privilege has any.
    ensures var (read, _) := ParsePrivileges(Join(PrivilegeParts(privileges, columns)) + (" ON " + rest)).value;
            |read| == |privileges| && forall i | 0 <= i < |read| ::
              read[i] == Privilege(privileges[i],
                                   if privileges[i] == "SELECT" || privileges[i] == "INSERT" then columns else [])
    decreases |privileges|
  {
    PrivilegesOfStep(privileges, columns);
    if |privileges| == 1 {
      PrivilegeAtEnd(privileges[0], columns, rest);
      var parts := PrivilegeParts(privileges, columns);
      assert |parts| == 1 && Join(parts) == parts[0] == PrivilegePart(privileges[0], columns);
      assert PrivilegesOf(privileges, columns) == [Privilege(privileges[0], ColumnsOf(privileges[0], columns))];
    } else {
      PrivilegesRoundTrip(privileges[1..], columns, rest);
      MorePrivileges(privileges, columns, rest);
    }
  }

  /** What ClickHouse reads in a privileges part: SELECT and INSERT with the columns, all others without. */
  ghost predicate ReadsAs(part: string, privileges: seq<string>, columns: seq<string>, rest: string) {
    var parsed := ParsePrivileges(part + (" ON " + rest));
    && parsed.Some? && parsed.value.1 == rest && |parsed.value.0| == |privileges|
    && forall i | 0 <= i < |privileges| ::
         parsed.value.0[i] == Privilege(privileges[i],
                                        if privileges[i] == "SELECT" || privileges[i] == "INSERT" then columns else [])
  }

  lemma MorePrivileges(privileges: seq<string>, columns: seq<string>, rest: string)
    requires |privileges| > 1 && IsKeyword(privileges[0])
    ensures ParsePrivileges(Join(PrivilegeParts(privileges, columns)) + (" ON " + rest)) ==
            Prepend(Privilege(privileges[0], ColumnsOf(privileges[0], columns)),
                    ParsePrivileges(Join(PrivilegeParts(privileges[1..], columns)) + (" ON " + rest)))
  {
    PrivilegesOfStep(privileges, columns);
    PrivilegeAtComma(privileges[0], columns, Join(PrivilegeParts(privileges[1..], columns)) + (" ON " + rest));
    JoinStep(PrivilegeParts(privileges, columns), " ON " + rest);
  }

  lemma DatabaseRoundTrip(database: string, rest: string)
    ensures ParseObject(Escape(database) + ".*" + rest) == Some(((database, None), rest))
  {
    var tail := ".*" + rest;
    IdentifierRoundTrip(database, tail);
    assert Escape(database) + ".*" + rest == Escape(database) + tail;
    assert tail[2..] == rest;
  }

  lemma TableRoundTrip(database: string, table: string, rest: string)
    ensures ParseObject(Escape(database) + "." + Escape(table) + rest) == Some(((database, Some(table)), rest))
  {
    var name := Escape(table) + rest;
    var tail := "." + name;
    IdentifierRoundTrip(database, tail);
    assert Escape(database) + "." + Escape(table) + rest == Escape(database) + tail;
    assert name[0] == '`' && tail[1] == '`' && tail[1..] == name;
    IdentifierRoundTrip(table, rest);
  }

  lemma ObjectRoundTrip(database: string, table: string, rest: string)
    ensures ParseObject(OnPart(database, table) + rest) ==
            Some(((database, if table == "" then None else Some(table)), rest))
  {
    if table == "" {
      DatabaseRoundTrip(database, rest);
    } else {
      TableRoundTrip(database, table, rest);
    }
  }

  /** The privileges start with no backquote, the roles with one. */
  lemma SubjectStarts(g: Grant, rest: string)
    requires IsPlain(g)
    ensures "`" <= MainPart(g) + rest <==> g.RoleGrant?
  {
    var s := MainPart(g) + rest;
    match g {
      case PrivilegeGrant(_, privileges, _, _, columns, _) =>
        var parts := PrivilegeParts(privileges, columns);
        assert parts[0] <= Join(parts);
        if privileges[0] == "" {
          assert s[0] == ',' || s[0] == ' ';
        } else {
          assert s[0] == privileges[0][0];
        }
      case RoleGrant(_, roles, _) =>
        assert EscapeList(roles)[0] <= Join(EscapeList(roles));
        assert s[0] == '`';
    }
  }

  lemma SubjectRoundTrip(g: Grant, rest: string)
    requires IsPlain(g) && !(", " <= rest)
    ensures ParseSubject(MainPart(g) + rest) == Some((SubjectOf(g), rest))
  {
    SubjectStarts(g, rest);
    match g {
      case PrivilegeGrant(_, privileges, database, table, columns, _) =>
        PrivilegeSubjectRoundTrip(g, rest);
      case RoleGrant(_, roles, _) =>
        IdentifiersRoundTrip(roles, rest);
    }
  }

  lemma PrivilegeSubjectRoundTrip(g: Grant, rest: string)
    requires IsPlain(g) && g.PrivilegeGrant?
    ensures ParsePrivileges(MainPart(g) + rest) ==
            Some((PrivilegesOf(g.privileges, g.columns), OnPart(g.database, g.table) + rest))
    ensures ParseObject(OnPart(g.database, g.table) + rest) ==
            Some(((g.database, if g.table == "" then None else Some(g.table)), rest))
  {
    var tail := OnPart(g.database, g.table) + rest;
    assert MainPart(g) + rest == Join(PrivilegeParts(g.privileges, g.columns)) + (" ON " + tail);
    PrivilegesRoundTrip(g.privileges, g.columns, tail);
    ObjectRoundTrip(g.database, g.table, rest);
  }

  lemma OptionRoundTrip(t: StatementType, g: Grant)
    ensures ParseOption(t, SubjectOf(g), OptionPart(t, g)) == Some(t.GRANT? && HasOption(g))
  {
  }

  lemma RestRoundTrip(t: StatementType, g: Grant, tail: string, end: string)
    requires IsPlain(g) && end == " " + OptionPart(t, g) && tail == GranteePart(g.grantees) + end
    ensures ParseRest(t, MainPart(g) + (Preposition(t) + tail)) == Some(StatementOf(t, g))
  {
    var middle := Preposition(t) + tail;
    assert middle[0] == ' ';
    SubjectRoundTrip(g, middle);
    assert middle[|Preposition(t)|..] == tail;
    assert Expect(Preposition(t), middle) == Some(tail);
    assert end[0] == ' ' && end[1..] == OptionPart(t, g);
    IdentifiersRoundTrip(GranteeNames(g.grantees), end);
    OptionRoundTrip(t, g);
  }

  /** Reading a statement that the operator wrote gives back everything it was written from: each privilege with the
      columns if it is SELECT or INSERT, each grantee as user or role, and the option of a GRANT. */
  lemma RoundTrip(t: StatementType, g: Grant)
    requires IsPlain(g)
    ensures Parse(BuildStatement(t, g)) == Some(StatementOf(t, g))
    ensures var s := Parse(BuildStatement(t, g)).value;
            && s.kind == t
            && s.option == (t.GRANT? && if g.PrivilegeGrant? then g.withGrantOption else g.withAdminOption)
            && |s.grantees| == |g.grantees|
            && (forall i | 0 <= i < |s.grantees| ::
                  s.grantees[i] == if g.grantees[i].user != "" then g.grantees[i].user else g.grantees[i].role)
            && (g.RoleGrant? ==> s.subject == Roles(g.roles))
            && (g.PrivilegeGrant? ==>
                  && s.subject.Privileges? && s.subject.database == g.database
                  && s.subject.table == (if g.table == "" then None else Some(g.table))
                  && |s.subject.privileges| == |g.privileges|
                  && forall i | 0 <= i < |g.privileges| ::
                       s.subject.privileges[i] ==
                       Privilege(g.privileges[i],
                                 if g.privileges[i] == "SELECT" || g.privileges[i] == "INSERT" then g.columns else []))
  {
    var end := " " + OptionPart(t, g);
    var tail := GranteePart(g.grantees) + end;
    var rest := MainPart(g) + (Preposition(t) + tail);
    RestRoundTrip(t, g, tail, end);
    ParseVerb(t, rest);
    ConcatFive(Verb(t), MainPart(g), Preposition(t), GranteePart(g.grantees), end);
  }

  lemma ConcatFive(a: string, b: string, c: string, d: string, e: string)
    ensures Concat([a, b, c, d, e]) == a + (b + (c + (d + e)))
  {
    assert [a, b, c, d, e][1..] == [b, c, d, e] && [b, c, d, e][1..] == [c, d, e] && [c, d, e][1..] == [d, e];
    assert Concat([e]) == e;
    assert Concat([d, e]) == d + e;
    assert Concat([c, d, e]) == c + (d + e);
    assert Concat([b, c, d, e]) == b + (c + (d + e));
  }

  lemma ParseVerb(t: StatementType, rest: string)
    ensures Parse(Verb(t) + rest) == ParseRest(t, rest)
  {
    assert (Verb(t) + rest)[|Verb(t)|..] == rest;
    assert (Verb(t) + rest)[0] == if t.GRANT? then 'G' else 'R';
    assert |Verb(t)| == if t.GRANT? then 6 else 7;
  }
}
