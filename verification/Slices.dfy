/** The slice helpers. */
module Slices {

  predicate Distinct<T(==)>(s: seq<T>) {
    forall i, j | 0 <= i < j < |s| :: s[i] != s[j]
  }

  /** s without repetitions, each element where it occurs first. */
  function Unique<T(==)>(s: seq<T>): (u: seq<T>) {
    if s == [] then []
    else
      var front := Unique(s[..|s| - 1]);
      if s[|s| - 1] in front then front else front + [s[|s| - 1]]
  }

  lemma {:induction false} UniqueElements<T>(s: seq<T>)
    ensures forall x :: x in Unique(s) <==> x in s
    decreases |s|
  {
    if s != [] {
      assert s == s[..|s| - 1] + [s[|s| - 1]];
      UniqueElements(s[..|s| - 1]);
    }
  }

  lemma {:induction false} UniqueIsDistinct<T>(s: seq<T>)
    ensures Distinct(Unique(s))
    ensures Distinct(s) ==> Unique(s) == s
    decreases |s|
  {
    if s != [] {
      var front, last := s[..|s| - 1], s[|s| - 1];
      assert s == front + [last];
      UniqueIsDistinct(front);
      UniqueElements(front);
    }
  }

  lemma {:induction false} UniquePrefix<T>(s: seq<T>, n: nat)
    requires n <= |s|
    ensures Unique(s[..n]) <= Unique(s)
    decreases |s|
  {
    if n < |s| {
      UniquePrefix(s[..|s| - 1], n);
      assert s[..|s| - 1][..n] == s[..n];
    } else {
      assert s[..n] == s;
    }
  }

  /** Nothing is lost, nothing is repeated, and first occurrences keep their order: what a prefix gives is a
      prefix of the whole result. */
  lemma UniqueMeaning<T>(s: seq<T>, n: nat)
    requires n <= |s|
    ensures Distinct(Unique(s)) && (forall x :: x in Unique(s) <==> x in s)
    ensures Unique(s[..n]) <= Unique(s)
    ensures Distinct(s) ==> Unique(s) == s
  {
    UniqueElements(s);
    UniqueIsDistinct(s);
    UniquePrefix(s, n);
  }

  method UniqueSliceElements<T(==)>(input: seq<T>) returns (unique: seq<T>)
    ensures unique == Unique(input)
    ensures Distinct(unique) && forall x :: x in unique <==> x in input
  {
    unique := [];
    var seen: set<T> := {};
    for i := 0 to |input|
      invariant unique == Unique(input[..i])
      invariant forall x :: x in seen <==> x in unique
    {
      assert input[..i + 1][..i] == input[..i];
      if input[i] !in seen {
        unique := unique + [input[i]];
        seen := seen + {input[i]};
      }
    }
    assert input[..|input|] == input;
    UniqueMeaning(input, 0);
  }

  /** The needles that are not in the haystack, in order. */
  function Missing<T(==)>(needles: seq<T>, haystack: seq<T>): seq<T> {
    if needles == [] then []
    else
      var last := needles[|needles| - 1];
      Missing(needles[..|needles| - 1], haystack) + if last in haystack then [] else [last]
  }

  lemma {:induction false} MissingMeaning<T>(needles: seq<T>, haystack: seq<T>)
    ensures forall x :: x in Missing(needles, haystack) <==> x in needles && x !in haystack
    ensures Missing(needles, haystack) == [] <==> forall x | x in needles :: x in haystack
    decreases |needles|
  {
    if needles != [] {
      var front, last := needles[..|needles| - 1], needles[|needles| - 1];
      assert needles == front + [last];
      MissingMeaning(front, haystack);
    }
  }

  method CheckSliceContainment<T(==)>(needles: seq<T>, haystack: seq<T>) returns (missing: seq<T>)
    ensures missing == Missing(needles, haystack)
    ensures missing == [] <==> forall x | x in needles :: x in haystack
  {
    missing := [];
    for i := 0 to |needles|
      invariant missing == Missing(needles[..i], haystack)
    {
      assert needles[..i + 1][..i] == needles[..i];
      var found := false;
      for j := 0 to |haystack|
        invariant !found && needles[i] !in haystack[..j]
      {
        if needles[i] == haystack[j] {
          found := true;
          break;
        }
      }
      if !found {
        missing := missing + [needles[i]];
      }
    }
    assert needles[..|needles|] == needles;
    MissingMeaning(needles, haystack);
  }

  function Mapped<T, U>(s: seq<T>, f: T -> U): (m: seq<U>)
    ensures |m| == |s| && forall i | 0 <= i < |s| :: m[i] == f(s[i])
  {
    seq(|s|, i requires 0 <= i < |s| => f(s[i]))
  }

  method MapSlice<T, U(0)>(slice: seq<T>, f: T -> U) returns (mapped: seq<U>)
    ensures mapped == Mapped(slice, f)
  {
    var out := new U[|slice|];
    for i := 0 to |slice|
      invariant forall j | 0 <= j < i :: out[j] == f(slice[j])
    {
      out[i] := f(slice[i]);
    }
    mapped := out[..];
  }

  /** The loop that appends what each element becomes. */
  method AppendMapped<T, U>(before: seq<U>, slice: seq<T>, f: T -> U) returns (after: seq<U>)
    ensures after == before + Mapped(slice, f)
  {
    after := before;
    for i := 0 to |slice|
      invariant after == before + Mapped(slice, f)[..i]
    {
      after := after + [f(slice[i])];
    }
    assert Mapped(slice, f)[..|slice|] == Mapped(slice, f);
  }

  /** Two loops, one after the other. */
  method MapBoth<T, U>(a: seq<T>, b: seq<T>, f: T -> U) returns (mapped: seq<U>)
    ensures mapped == Mapped(a + b, f)
  {
    mapped := AppendMapped([], a, f);
    mapped := AppendMapped(mapped, b, f);
    MappedParts(a, b, f);
  }

  lemma MappedParts<T, U>(a: seq<T>, b: seq<T>, f: T -> U)
    ensures Mapped(a + b, f) == Mapped(a, f) + Mapped(b, f)
  {
  }

  lemma MappedFront<T, U>(s: seq<T>, f: T -> U)
    requires s != []
    ensures Mapped(s, f) != [] && Mapped(s, f)[..|s| - 1] == Mapped(s[..|s| - 1], f) &&
            Mapped(s, f)[|s| - 1] == f(s[|s| - 1])
  {
  }
}
