/** The annotation patch the managed reconciler sends after a pass, as a JSON merge patch
    (section 2 of RFC 7396) on a flat object of strings. */
module AnnotationPatch {
  import opened Base

  type Annotations = map<string, string>

  /** None stands for null, which removes the key. */
  type MergePatch = map<string, Option<string>>

  function ApplyMergePatch(target: Annotations, patch: MergePatch): Annotations {
    map key | key in target.Keys + patch.Keys && (key in patch ==> patch[key].Some?) ::
      if key in patch then patch[key].value else target[key]
  }

  function Lookup(annotations: Annotations, key: string): Option<string> {
    if key in annotations then Some(annotations[key]) else None
  }

  function ChangedKeys(orig: Annotations, current: Annotations): set<string> {
    set key | key in orig.Keys + current.Keys && Lookup(orig, key) != Lookup(current, key)
  }

  function Diff(orig: Annotations, current: Annotations): MergePatch {
    map key | key in ChangedKeys(orig, current) :: Lookup(current, key)
  }

  lemma MergedLookup(target: Annotations, patch: MergePatch, key: string)
    ensures Lookup(ApplyMergePatch(target, patch), key) == if key in patch then patch[key] else Lookup(target, key)
  {
  }

  lemma SameLookups(a: Annotations, b: Annotations)
    requires forall key :: Lookup(a, key) == Lookup(b, key)
    ensures a == b
  {
    assert forall key :: key in a <==> Lookup(a, key).Some?;
    assert forall key :: key in b <==> Lookup(b, key).Some?;
    forall key | key in a
      ensures a[key] == b[key]
    {
      assert Lookup(a, key) == Lookup(b, key);
    }
  }

  /** Applied to the original map, the difference gives exactly the current map. */
  lemma DiffReproducesCurrent(orig: Annotations, current: Annotations)
    ensures ApplyMergePatch(orig, Diff(orig, current)) == current
  {
    forall key
      ensures Lookup(ApplyMergePatch(orig, Diff(orig, current)), key) == Lookup(current, key)
    {
      MergedLookup(orig, Diff(orig, current), key);
    }
    SameLookups(ApplyMergePatch(orig, Diff(orig, current)), current);
  }

  /** Applied to any other map, it sets the keys this pass changed and leaves all others alone. */
  lemma DiffTouchesOnlyChanges(orig: Annotations, current: Annotations, other: Annotations, key: string)
    ensures Lookup(ApplyMergePatch(other, Diff(orig, current)), key) ==
            if Lookup(orig, key) != Lookup(current, key) then Lookup(current, key) else Lookup(other, key)
  {
    MergedLookup(other, Diff(orig, current), key);
  }

  /** It is empty exactly when the two maps agree, and no smaller patch does its work. */
  lemma DiffIsLeast(orig: Annotations, current: Annotations, patch: MergePatch)
    ensures Diff(orig, current) == map[] <==> orig == current
    ensures ApplyMergePatch(orig, patch) == current ==> Diff(orig, current).Keys <= patch.Keys
  {
    if Diff(orig, current) == map[] {
      DiffReproducesCurrent(orig, current);
      assert ApplyMergePatch(orig, map[]) == orig;
    }
    forall key | ApplyMergePatch(orig, patch) == current && key in Diff(orig, current)
      ensures key in patch
    {
      MergedLookup(orig, patch, key);
    }
  }

  /** The two loops that build the patch. */
  method AnnotationChanges(orig: Annotations, current: Annotations) returns (patch: MergePatch)
    ensures patch == Diff(orig, current)
  {
    patch := map[];
    var rest := orig.Keys;
    while rest != {}
      invariant rest <= orig.Keys
      invariant forall key :: key in patch <==> key in orig && key !in rest && Lookup(orig, key) != Lookup(current, key)
      invariant forall key | key in patch :: patch[key] == Lookup(current, key)
      decreases rest
    {
      var key :| key in rest;
      if key !in current {
        patch := patch[key := None];
      } else if current[key] != orig[key] {
        patch := patch[key := Some(current[key])];
      }
      rest := rest - {key};
    }
    rest := current.Keys;
    while rest != {}
      invariant rest <= current.Keys
      invariant forall key :: key in patch <==>
                  Lookup(orig, key) != Lookup(current, key) && (key in orig || (key in current && key !in rest))
      invariant forall key | key in patch :: patch[key] == Lookup(current, key)
      decreases rest
    {
      var key :| key in rest;
      if key !in orig {
        patch := patch[key := Some(current[key])];
      }
      rest := rest - {key};
    }
    assert patch == Diff(orig, current);
  }
}
