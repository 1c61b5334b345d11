/** The schema registry as the operator sees it. Ids are global and belong to a content; each subject
    holds a list of versions, and posting a content that a subject already has changes nothing. */
module SchemaRegistry {
  import opened Base

  /** A resolved reference, as it is posted. */
  datatype ReferenceIn = ReferenceIn(name: string, subject: string, version: nat)

  datatype Content = Content(schema: string, schemaType: string, references: seq<ReferenceIn>)

  /** The id of a content is its position in contents plus one; version v of a subject is subjects[s][v - 1]. */
  datatype Registry = Registry(contents: seq<Content>, subjects: map<string, seq<nat>>)

  ghost predicate ValidVersions(versions: seq<nat>, ids: nat) {
    && (forall i | 0 <= i < |versions| :: 1 <= versions[i] <= ids)
    && (forall i, j | 0 <= i < j < |versions| :: versions[i] != versions[j])
  }

  ghost predicate Valid(r: Registry) {
    && (forall i, j | 0 <= i < j < |r.contents| :: r.contents[i] != r.contents[j])
    && (forall s | s in r.subjects :: ValidVersions(r.subjects[s], |r.contents|))
  }

  function IdOf(contents: seq<Content>, content: Content): nat {
    if contents == [] then 0
    else if contents[|contents| - 1] == content then |contents|
    else IdOf(contents[..|contents| - 1], content)
  }

  function Versions(r: Registry, subject: string): seq<nat> {
    if subject in r.subjects then r.subjects[subject] else []
  }

  function Post(r: Registry, subject: string, content: Content): (r': Registry) {
    var contents := if content in r.contents then r.contents else r.contents + [content];
    var id := IdOf(contents, content);
    var versions := Versions(r, subject);
    Registry(contents, r.subjects[subject := if id in versions then versions else versions + [id]])
  }

  /** The highest version of the subject that holds the id, if there is one. */
  function VersionOf(versions: seq<nat>, id: nat): nat {
    if versions == [] then 0
    else if versions[|versions| - 1] == id then |versions|
    else VersionOf(versions[..|versions| - 1], id)
  }

  lemma {:induction false} IdOfMeaning(contents: seq<Content>, content: Content)
    ensures var id := IdOf(contents, content);
            && (id == 0 <==> content !in contents)
            && (id > 0 ==> id <= |contents| && contents[id - 1] == content)
    decreases |contents|
  {
    if contents != [] {
      IdOfMeaning(contents[..|contents| - 1], content);
    }
  }

  lemma {:induction false} VersionOfMeaning(versions: seq<nat>, id: nat)
    ensures var v := VersionOf(versions, id);
            && (v == 0 <==> id !in versions)
            && (v > 0 ==> v <= |versions| && versions[v - 1] == id && forall i | v <= i < |versions| ::
               versions[i] != id)
    decreases |versions|
  {
    if versions != [] {
      VersionOfMeaning(versions[..|versions| - 1], id);
    }
  }

  /** The content under its id, wherever it is in the list of all contents. */
  lemma PostedId(r: Registry, subject: string, content: Content)
    ensures var r' := Post(r, subject, content); var id := IdOf(r'.contents, content);
            && 1 <= id <= |r'.contents| && r'.contents[id - 1] == content && r.contents <= r'.contents
            && (id in Versions(r, subject) ==> r'.subjects == r.subjects[subject := Versions(r, subject)])
            && (id !in Versions(r, subject) ==> r'.subjects == r.subjects[subject := Versions(r, subject) + [id]])
  {
    IdOfMeaning(r.contents, content);
    IdOfMeaning(r.contents + [content], content);
  }

  predicate Holds(r: Registry, subject: string, version: nat, content: Content) {
    && 1 <= version <= |Versions(r, subject)|
    && 1 <= Versions(r, subject)[version - 1] <= |r.contents|
    && r.contents[Versions(r, subject)[version - 1] - 1] == content
  }

  // ---------------------------------------------------------------- what posting does

  /** Nothing a registry holds is ever renumbered or lost. */
  ghost predicate Extends(later: Registry, earlier: Registry) {
    && earlier.subjects.Keys <= later.subjects.Keys
    && (forall s, v, c | Holds(earlier, s, v, c) :: Holds(later, s, v, c))
  }

  lemma PostExtends(r: Registry, subject: string, content: Content)
    ensures Extends(Post(r, subject, content), r)
  {
    PostedId(r, subject, content);
  }

  lemma PostKeepsValid(r: Registry, subject: string, content: Content)
    requires Valid(r)
    ensures Valid(Post(r, subject, content))
  {
    var r' := Post(r, subject, content);
    PostedId(r, subject, content);
    assert Versions(r, subject) == [] || ValidVersions(Versions(r, subject), |r.contents|);
    forall s | s in r'.subjects
      ensures ValidVersions(r'.subjects[s], |r'.contents|)
    {
      if s != subject {
        assert ValidVersions(r.subjects[s], |r.contents|);
      }
    }
  }

  /** The posted content is found under its id. */
  lemma PostIsFound(r: Registry, subject: string, content: Content)
    ensures var r' := Post(r, subject, content);
            var version := VersionOf(Versions(r', subject), IdOf(r'.contents, content));
            subject in r'.subjects && Holds(r', subject, version, content)
  {
    var r' := Post(r, subject, content);
    PostedId(r, subject, content);
    VersionOfMeaning(Versions(r', subject), IdOf(r'.contents, content));
  }

  /** A content that the subject already has keeps its version: posting it again, also after others, changes nothing. */
  lemma RevertIsIdempotent(r: Registry, subject: string, content: Content, version: nat)
    requires Valid(r) && Holds(r, subject, version, content)
    ensures Post(r, subject, content) == r
    ensures VersionOf(Versions(r, subject), IdOf(r.contents, content)) == version
  {
    var id := Versions(r, subject)[version - 1];
    assert r.contents[id - 1] == content;
    IdOfMeaning(r.contents, content);
    VersionOfMeaning(Versions(r, subject), id);
    assert IdOf(r.contents, content) == id;
    assert r.subjects[subject := r.subjects[subject]] == r.subjects;
  }
}
