/** Technical e-mail addresses of a project, brought into the form in which the service stores them: domain in lower
    case, no repetitions, sorted.

    Which characters have a lower case is a parameter: a mapping of characters that changes nothing when applied
    twice, and that neither makes nor removes an '@', such as that of ASCII letters. */
module TechEmails {
  import opened Slices

  type CaseMapping = char -> char

  ghost predicate IsCaseMapping(lower: CaseMapping) {
    forall c :: lower(lower(c)) == lower(c) && (lower(c) == '@' <==> c == '@')
  }

  function AsciiLower(c: char): char {
    if 'A' <= c <= 'Z' then (c as int + 32) as char else c
  }

  lemma AsciiLowerIsCaseMapping()
    ensures IsCaseMapping(AsciiLower)
  {
    forall c: char
      ensures AsciiLower(AsciiLower(c)) == AsciiLower(c) && (AsciiLower(c) == '@' <==> c == '@')
    {
      if 'A' <= c <= 'Z' {
        assert AsciiLower(c) as int == c as int + 32;
      }
    }
  }

  function ToLower(lower: CaseMapping, s: string): (r: string)
    ensures |r| == |s| && forall i | 0 <= i < |s| :: r[i] == lower(s[i])
  {
    if s == "" then "" else [lower(s[0])] + ToLower(lower, s[1..])
  }

  /** Where the last '@' is, plus one; 0 if there is none. */
  function AfterLastAt(s: string): (n: nat)
    ensures n <= |s| && (n == 0 || s[n - 1] == '@') && forall i | n <= i < |s| :: s[i] != '@'
  {
    if s == "" then 0 else if s[|s| - 1] == '@' then |s| else AfterLastAt(s[..|s| - 1])
  }

  /** An address without '@' stays as it is. */
  function LowerDomain(lower: CaseMapping, e: string): string {
    var n := AfterLastAt(e);
    if n == 0 then e else e[..n] + ToLower(lower, e[n..])
  }

  /** Position i is in the domain: after the last '@'. */
  ghost predicate InDomain(e: string, i: nat) {
    (exists k | 0 <= k < |e| :: k < i && e[k] == '@') && forall k | i <= k < |e| :: e[k] != '@'
  }

  /** x is the address e, with every character of its domain in lower case and all others as they are. */
  ghost predicate Spells(lower: CaseMapping, e: string, x: string) {
    |x| == |e| && forall i | 0 <= i < |e| :: x[i] == if InDomain(e, i) then lower(e[i]) else e[i]
  }

  ghost predicate IsSpelled(lower: CaseMapping, emails: seq<string>, x: string) {
    exists e | e in emails :: Spells(lower, e, x)
  }

  lemma DomainStartsAfterLastAt(e: string, i: nat)
    requires i < |e|
    ensures InDomain(e, i) <==> 0 < AfterLastAt(e) <= i
  {
    var n := AfterLastAt(e);
    if 0 < n <= i {
      assert n - 1 < i && e[n - 1] == '@';
    }
  }

  lemma LowerDomainExactly(lower: CaseMapping, e: string, x: string)
    ensures x == LowerDomain(lower, e) <==> Spells(lower, e, x)
  {
    var y := LowerDomain(lower, e);
    forall i | 0 <= i < |e|
      ensures |y| == |e| && y[i] == if InDomain(e, i) then lower(e[i]) else e[i]
    {
      DomainStartsAfterLastAt(e, i);
    }
    assert |y| == |e|;
  }

  /** For an address with the parts around its last '@'. */
  lemma LowerDomainOfParts(lower: CaseMapping, local: string, domain: string)
    requires '@' !in domain
    ensures var x := LowerDomain(lower, local + "@" + domain);
            && |x| == |local| + 1 + |domain| && x[..|local| + 1] == local + "@"
            && forall i | 0 <= i < |domain| :: x[|local| + 1 + i] == lower(domain[i])
  {
    var e := local + "@" + domain;
    LowerKeepsAt(local + "@", domain);
    assert e[..|local| + 1] == local + "@" && e[|local| + 1..] == domain;
  }

  lemma LowerDomainWithoutAt(lower: CaseMapping, e: string)
    requires '@' !in e
    ensures LowerDomain(lower, e) == e
  {
  }

  // ---------------------------------------------------------------- order

  predicate Less(a: string, b: string) {
    b != "" && (a == "" || a[0] < b[0] || (a[0] == b[0] && Less(a[1..], b[1..])))
  }

  /** The order of the characters decides where two strings first differ, and a prefix comes first. */
  lemma {:induction false} LessMeaning(a: string, b: string)
    ensures Less(a, b) <==>
            || (|a| < |b| && a == b[..|a|])
            || exists i | 0 <= i < |a| && i < |b| :: a[..i] == b[..i] && a[i] < b[i]
    decreases |a|
  {
    if a != "" && b != "" {
      LessMeaning(a[1..], b[1..]);
      if Less(a, b) && a[0] == b[0] {
        LessInRest(a, b);
      }
      if i :| 0 < i < |a| && i < |b| && a[..i] == b[..i] && a[i] < b[i] {
        assert a[1..][..i - 1] == a[..i][1..] == b[..i][1..] == b[1..][..i - 1];
        assert a[0] == a[..i][0] == b[..i][0] == b[0];
      }
      if |a| < |b| && a == b[..|a|] {
        assert a[1..] == b[1..][..|a| - 1];
      }
    }
    if a != "" && b != "" && a[0] < b[0] {
      assert a[..0] == b[..0];
    }
  }

  lemma LessInRest(a: string, b: string)
    requires a != "" && b != "" && a[0] == b[0]
    requires || (|a[1..]| < |b[1..]| && a[1..] == b[1..][..|a| - 1])
             || exists i | 0 <= i < |a[1..]| && i < |b[1..]| :: a[1..][..i] == b[1..][..i] && a[1..][i] < b[1..][i]
    ensures || (|a| < |b| && a == b[..|a|])
            || exists i | 0 <= i < |a| && i < |b| :: a[..i] == b[..i] && a[i] < b[i]
  {
    if |a[1..]| < |b[1..]| && a[1..] == b[1..][..|a| - 1] {
      assert a == [a[0]] + a[1..] == b[..|a|];
    } else {
      var i :| 0 <= i < |a[1..]| && i < |b[1..]| && a[1..][..i] == b[1..][..i] && a[1..][i] < b[1..][i];
      assert a[..i + 1] == [a[0]] + a[1..][..i] == [b[0]] + b[1..][..i] == b[..i + 1];
      assert a[i + 1] < b[i + 1];
    }
  }

  lemma {:induction false} LessIsTotal(a: string, b: string)
    ensures a == b || Less(a, b) || Less(b, a)
    ensures !(Less(a, b) && Less(b, a)) && !Less(a, a)
    decreases |a|
  {
    if a != "" && b != "" {
      LessIsTotal(a[1..], b[1..]);
      LessIsTotal(a[1..], a[1..]);
      if a[0] == b[0] && a[1..] == b[1..] {
        assert a == [a[0]] + a[1..] == b;
      }
    } else if a != "" {
      LessIsTotal(a[1..], a[1..]);
    }
  }

  lemma {:induction false} LessIsTransitive(a: string, b: string, c: string)
    requires Less(a, b) && Less(b, c)
    ensures Less(a, c)
    decreases |a|
  {
    if a != "" && a[0] == b[0] && b[0] == c[0] {
      LessIsTransitive(a[1..], b[1..], c[1..]);
    }
  }

  /** Sorted, with nothing twice. */
  predicate Ascending(s: seq<string>) {
    forall i, j | 0 <= i < j < |s| :: Less(s[i], s[j])
  }

  lemma AscendingIsDistinct(s: seq<string>)
    requires Ascending(s)
    ensures Distinct(s)
  {
    forall i, j | 0 <= i < j < |s|
      ensures s[i] != s[j]
    {
      LessIsTotal(s[i], s[i]);
    }
  }

  /** A set of strings has one ascending list only. */
  lemma {:induction false} AscendingIsCanonical(a: seq<string>, b: seq<string>)
    requires Ascending(a) && Ascending(b) && forall x :: x in a <==> x in b
    ensures a == b
    decreases |a|
  {
    assert b != [] ==> b[0] in a;
    if a != [] {
      assert a[0] in b;
      SameFirst(a, b);
      forall x
        ensures x in a[1..] <==> x in b[1..]
      {
        RestOf(a, x);
        RestOf(b, x);
      }
      AscendingIsCanonical(a[1..], b[1..]);
      assert a == [a[0]] + a[1..] && b == [b[0]] + b[1..];
    }
  }

  lemma SameFirst(a: seq<string>, b: seq<string>)
    requires Ascending(a) && Ascending(b) && a != [] && b != [] && a[0] in b && b[0] in a
    ensures a[0] == b[0]
  {
    LessIsTotal(a[0], b[0]);
  }

  lemma RestOf(s: seq<string>, x: string)
    requires Ascending(s) && s != []
    ensures x in s[1..] <==> x in s && x != s[0]
  {
    AscendingIsDistinct(s);
    assert s == [s[0]] + s[1..];
  }

  // ---------------------------------------------------------------- sorting

  function Insert(s: seq<string>, x: string): seq<string> {
    if s == [] || Less(x, s[0]) then [x] + s else [s[0]] + Insert(s[1..], x)
  }

  function Sort(s: seq<string>): seq<string> {
    if s == [] then [] else Insert(Sort(s[..|s| - 1]), s[|s| - 1])
  }

  lemma {:induction false} InsertMeaning(s: seq<string>, x: string)
    ensures forall y :: y in Insert(s, x) <==> y == x || y in s
    ensures Ascending(s) && x !in s ==> Ascending(Insert(s, x))
    decreases |s|
  {
    if s != [] && !Less(x, s[0]) {
      InsertMeaning(s[1..], x);
      assert s == [s[0]] + s[1..];
      if Ascending(s) && x !in s {
        LessIsTotal(x, s[0]);
        var rest := Insert(s[1..], x);
        forall j | 0 <= j < |rest|
          ensures Less(s[0], rest[j])
        {
          assert rest[j] in rest;
        }
      }
    } else if s != [] && Ascending(s) {
      forall j | 0 <= j < |s|
        ensures Less(x, s[j])
      {
        if j > 0 {
          LessIsTransitive(x, s[0], s[j]);
        }
      }
    }
  }

  lemma {:induction false} SortMeaning(s: seq<string>)
    requires Distinct(s)
    ensures Ascending(Sort(s)) && forall x :: x in Sort(s) <==> x in s
    decreases |s|
  {
    if s != [] {
      var front, last := s[..|s| - 1], s[|s| - 1];
      assert s == front + [last];
      SortMeaning(front);
      InsertMeaning(Sort(front), last);
    }
  }

  // ---------------------------------------------------------------- normalizing

  function Lowered(lower: CaseMapping, emails: seq<string>): seq<string> {
    Mapped(emails, e => LowerDomain(lower, e))
  }

  function Normalize(lower: CaseMapping, emails: seq<string>): seq<string> {
    Sort(Unique(Lowered(lower, emails)))
  }

  lemma NormalizeMeaning(lower: CaseMapping, emails: seq<string>)
    ensures Ascending(Normalize(lower, emails))
    ensures forall x :: x in Normalize(lower, emails) <==> x in Lowered(lower, emails)
    ensures forall x :: x in Normalize(lower, emails) <==> IsSpelled(lower, emails, x)
  {
    UniqueMeaning(Lowered(lower, emails), 0);
    SortMeaning(Unique(Lowered(lower, emails)));
    forall x
      ensures x in Lowered(lower, emails) <==> IsSpelled(lower, emails, x)
    {
      LoweredSpells(lower, emails, x);
    }
  }

  lemma LoweredSpells(lower: CaseMapping, emails: seq<string>, x: string)
    ensures x in Lowered(lower, emails) <==> IsSpelled(lower, emails, x)
  {
    var lowered := Lowered(lower, emails);
    if x in lowered {
      var i :| 0 <= i < |lowered| && lowered[i] == x;
      LowerDomainExactly(lower, emails[i], x);
      assert emails[i] in emails;
    }
    if e :| e in emails && Spells(lower, e, x) {
      var i :| 0 <= i < |emails| && emails[i] == e;
      LowerDomainExactly(lower, e, x);
      assert lowered[i] == x;
    }
  }

  method NormalizeTechEmails(lower: CaseMapping, emails: seq<string>) returns (out: seq<string>)
    ensures out == Normalize(lower, emails)
    // Every address with its domain in lower case, each once, and in order.
    ensures Ascending(out) && forall x :: x in out <==> IsSpelled(lower, emails, x)
  {
    NormalizeMeaning(lower, emails);
    out := [];
    var seen: set<string> := {};
    for i := 0 to |emails|
      invariant out == Unique(Lowered(lower, emails)[..i])
      invariant forall x :: x in seen <==> x in out
    {
      assert Lowered(lower, emails)[..i + 1][..i] == Lowered(lower, emails)[..i];
      var e := emails[i];
      var at := AfterLastAt(e);
      if at > 0 {
        e := e[..at] + ToLower(lower, e[at..]);
      }
      if e in seen {
        continue;
      }
      seen := seen + {e};
      out := out + [e];
    }
    assert Lowered(lower, emails)[..|emails|] == Lowered(lower, emails);
    out := Sort(out);
  }

  lemma ToLowerTwice(lower: CaseMapping, s: string)
    requires IsCaseMapping(lower)
    ensures ToLower(lower, ToLower(lower, s)) == ToLower(lower, s)
  {
  }

  lemma {:induction false} LowerKeepsAt(local: string, domain: string)
    requires local != "" && local[|local| - 1] == '@' && forall i | 0 <= i < |domain| :: domain[i] != '@'
    ensures AfterLastAt(local + domain) == |local|
  {
    var n := AfterLastAt(local + domain);
    assert (local + domain)[|local| - 1] == '@';
    forall i | |local| <= i < |local + domain|
      ensures (local + domain)[i] != '@'
    {
      assert (local + domain)[i] == domain[i - |local|];
    }
  }

  lemma LowerDomainTwice(lower: CaseMapping, e: string)
    requires IsCaseMapping(lower)
    ensures LowerDomain(lower, LowerDomain(lower, e)) == LowerDomain(lower, e)
  {
    var n := AfterLastAt(e);
    if n > 0 {
      var local, domain := e[..n], ToLower(lower, e[n..]);
      LowerKeepsAt(local, domain);
      ToLowerTwice(lower, e[n..]);
      assert (local + domain)[..n] == local && (local + domain)[n..] == domain;
    }
  }

  /** Normalizing a normalized list changes nothing. */
  lemma NormalizeTwice(lower: CaseMapping, emails: seq<string>)
    requires IsCaseMapping(lower)
    ensures Normalize(lower, Normalize(lower, emails)) == Normalize(lower, emails)
  {
    var once := Normalize(lower, emails);
    NormalizeMeaning(lower, emails);
    forall i | 0 <= i < |once|
      ensures LowerDomain(lower, once[i]) == once[i]
    {
      assert once[i] in Lowered(lower, emails);
      var k :| 0 <= k < |emails| && Lowered(lower, emails)[k] == once[i];
      LowerDomainTwice(lower, emails[k]);
    }
    assert Lowered(lower, once) == once;
    NormalizeMeaning(lower, once);
    AscendingIsCanonical(Normalize(lower, once), once);
  }

  function LoweredAddresses(lower: CaseMapping, emails: seq<string>): set<string> {
    set e | e in emails :: LowerDomain(lower, e)
  }

  lemma PartsAreLowered(lower: CaseMapping, local: string, domain: string)
    requires '@' !in domain
    ensures LowerDomain(lower, local + "@" + domain) == local + "@" + ToLower(lower, domain)
  {
    var e := local + "@" + domain;
    LowerKeepsAt(local + "@", domain);
    assert e[..|local| + 1] == local + "@" && e[|local| + 1..] == domain;
  }

  lemma SameParts(local: string, domain: string, local': string, domain': string)
    requires '@' !in domain && '@' !in domain'
    ensures local + "@" + domain == local' + "@" + domain' ==> local == local' && domain == domain'
  {
    var x, y := local + "@" + domain, local' + "@" + domain';
    LowerKeepsAt(local + "@", domain);
    LowerKeepsAt(local' + "@", domain');
    if x == y {
      assert local == x[..|local|] && local' == y[..|local'|];
      assert domain == x[|local| + 1..] && domain' == y[|local'| + 1..];
    }
  }

  lemma LoweredHasNoAt(lower: CaseMapping, domain: string)
    requires IsCaseMapping(lower) && '@' !in domain
    ensures '@' !in ToLower(lower, domain)
  {
  }

  /** Two addresses have the same normal form exactly if their local parts are equal, and their domains are equal up to
      case. */
  lemma SameAddressExactly(lower: CaseMapping, local: string, domain: string, local': string, domain': string)
    requires IsCaseMapping(lower) && '@' !in domain && '@' !in domain'
    ensures Normalize(lower, [local + "@" + domain]) == Normalize(lower, [local' + "@" + domain']) <==>
            && local == local' && |domain| == |domain'|
            && forall i | 0 <= i < |domain| :: lower(domain[i]) == lower(domain'[i])
  {
    OneAddress(lower, local + "@" + domain);
    OneAddress(lower, local' + "@" + domain');
    PartsAreLowered(lower, local, domain);
    PartsAreLowered(lower, local', domain');
    LoweredHasNoAt(lower, domain);
    LoweredHasNoAt(lower, domain');
    SameParts(local, ToLower(lower, domain), local', ToLower(lower, domain'));
    SameLowered(lower, domain, domain');
  }

  lemma SameLowered(lower: CaseMapping, a: string, b: string)
    ensures ToLower(lower, a) == ToLower(lower, b) <==>
            |a| == |b| && forall i | 0 <= i < |a| :: lower(a[i]) == lower(b[i])
  {
    var x, y := ToLower(lower, a), ToLower(lower, b);
    if x == y {
      forall i | 0 <= i < |a|
        ensures lower(a[i]) == lower(b[i])
      {
        assert x[i] == y[i];
      }
    }
  }

  lemma OneAddress(lower: CaseMapping, e: string)
    ensures Normalize(lower, [e]) == [LowerDomain(lower, e)]
  {
    var lowered := Lowered(lower, [e]);
    assert lowered == [LowerDomain(lower, e)] && lowered[..0] == [];
    assert Unique(lowered) == lowered;
    assert Sort(lowered) == Insert(Sort([]), lowered[0]);
  }

  /** Two lists have the same normal form exactly if they name the same addresses, up to the case of the domain. */
  lemma NormalFormIsCanonical(lower: CaseMapping, a: seq<string>, b: seq<string>)
    ensures Normalize(lower, a) == Normalize(lower, b) <==> LoweredAddresses(lower, a) == LoweredAddresses(lower, b)
    ensures Normalize(lower, a) == Normalize(lower, b) <==>
            forall x :: IsSpelled(lower, a, x) <==> IsSpelled(lower, b, x)
  {
    SameElementsExactly(lower, a, b);
    LoweredSet(lower, a);
    LoweredSet(lower, b);
    NormalizeMeaning(lower, a);
    NormalizeMeaning(lower, b);
    forall x: string
      ensures IsSpelled(lower, a, x) <==> x in LoweredAddresses(lower, a)
      ensures IsSpelled(lower, b, x) <==> x in LoweredAddresses(lower, b)
    {
      LoweredSpells(lower, a, x);
      LoweredSpells(lower, b, x);
    }
  }

  lemma SameElementsExactly(lower: CaseMapping, a: seq<string>, b: seq<string>)
    ensures Normalize(lower, a) == Normalize(lower, b) <==>
            forall x :: x in Lowered(lower, a) <==> x in Lowered(lower, b)
  {
    NormalizeMeaning(lower, a);
    NormalizeMeaning(lower, b);
    if forall x :: x in Lowered(lower, a) <==> x in Lowered(lower, b) {
      AscendingIsCanonical(Normalize(lower, a), Normalize(lower, b));
    }
  }

  lemma LoweredSet(lower: CaseMapping, emails: seq<string>)
    ensures forall x :: x in Lowered(lower, emails) <==> x in LoweredAddresses(lower, emails)
  {
    forall e | e in emails
      ensures LowerDomain(lower, e) in Lowered(lower, emails)
    {
      var i :| 0 <= i < |emails| && emails[i] == e;
      assert Lowered(lower, emails)[i] == LowerDomain(lower, e);
    }
  }
}
