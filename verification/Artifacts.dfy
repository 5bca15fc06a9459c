/**
 Artifact versioning: ArtifactService over the artifact and version tables, and the migration that
 gives old artifacts their first version. Ids are positions in the tables, whose rows are never removed.
 */
module Artifacts {
  import opened Common

  type Content = string
  type ArtifactId = nat
  type VersionId = nat

  /** The content hash, the size of the UTF-8 encoding, and the configured size limit. */
  datatype Codec = Codec(hash: Content -> nat, size: Content -> nat, maxSize: nat)

  datatype Artifact = Artifact(content: Content, current: Option<VersionId>, deleted: bool)

  datatype Version = Version(artifact: ArtifactId, number: nat, content: Content, hash: nat)

  datatype State = State(artifacts: seq<Artifact>, versions: seq<Version>)

  /** allowed is the outcome of the write check. */
  datatype Call =
    | Create(content: Content, allowed: bool)
    | SaveGenerated(content: Content)
    | AddVersion(artifact: ArtifactId, content: Content, allowed: bool)
    | Restore(artifact: ArtifactId, number: nat, allowed: bool)
    | Delete(artifact: ArtifactId, allowed: bool)

  // ----- queries on the version table -----

  /** An artifact's versions, oldest row first. */
  function Of(versions: seq<Version>, a: ArtifactId): seq<Version> {
    if versions == [] then []
    else
      var last := versions[|versions| - 1];
      Of(versions[..|versions| - 1], a) + if last.artifact == a then [last] else []
  }

  function MaxNumber(versions: seq<Version>, a: ArtifactId): nat {
    if versions == [] then 0
    else
      var before, last := MaxNumber(versions[..|versions| - 1], a), versions[|versions| - 1];
      if last.artifact == a && before < last.number then last.number else before
  }

  /** The highest-numbered version with the hash. */
  function ByHash(versions: seq<Version>, a: ArtifactId, hash: nat): (r: Option<VersionId>)
    ensures r.Some? ==> r.value < |versions| && versions[r.value].artifact == a && versions[r.value].hash == hash
  {
    if versions == [] then None
    else
      var before, last := ByHash(versions[..|versions| - 1], a, hash), versions[|versions| - 1];
      if last.artifact == a && last.hash == hash &&
         (before.None? || versions[before.value].number <= last.number)
      then Some(|versions| - 1) else before
  }

  function ByNumber(versions: seq<Version>, a: ArtifactId, number: nat): (r: Option<VersionId>)
    ensures r.Some? ==> r.value < |versions| && versions[r.value].artifact == a && versions[r.value].number == number
    ensures r.None? ==> forall i :: 0 <= i < |versions| && versions[i].artifact == a ==> versions[i].number != number
  {
    if versions == [] then None
    else
      var last := versions[|versions| - 1];
      if last.artifact == a && last.number == number then Some(|versions| - 1)
      else ByNumber(versions[..|versions| - 1], a, number)
  }

  // ----- what a call leaves -----

  predicate Writable(s: State, a: ArtifactId, allowed: bool) {
    a < |s.artifacts| && !s.artifacts[a].deleted && allowed
  }

  function PointAt(s: State, a: ArtifactId, v: VersionId): State
    requires a < |s.artifacts| && v < |s.versions|
  {
    s.(artifacts := s.artifacts[a := s.artifacts[a].(current := Some(v), content := s.versions[v].content)])
  }

  /** A new version of a, numbered after the highest, with the pointer and the content moved to it. */
  function Append(codec: Codec, s: State, a: ArtifactId, content: Content): State
    requires a < |s.artifacts|
  {
    PointAt(s.(versions := s.versions + [Version(a, MaxNumber(s.versions, a) + 1, content, codec.hash(content))]),
            a, |s.versions|)
  }

  function After(codec: Codec, s: State, call: Call): State {
    match call
    case Create(content, allowed) =>
      if codec.size(content) > codec.maxSize || !allowed then s
      else
        var a := |s.artifacts|;
        State(s.artifacts + [Artifact(content, Some(|s.versions|), false)],
              s.versions + [Version(a, 1, content, codec.hash(content))])
    case SaveGenerated(content) => s.(artifacts := s.artifacts + [Artifact(content, None, false)])
    case AddVersion(a, content, allowed) =>
      if codec.size(content) > codec.maxSize || !Writable(s, a, allowed) then s
      else
        var existing := ByHash(s.versions, a, codec.hash(content));
        if existing.None? then Append(codec, s, a, content)
        else if s.artifacts[a].current != existing then PointAt(s, a, existing.value)
        else s
    case Restore(a, number, allowed) =>
      if !Writable(s, a, allowed) || ByNumber(s.versions, a, number).None? then s
      else Append(codec, s, a, s.versions[ByNumber(s.versions, a, number).value].content)
    case Delete(a, allowed) =>
      if Writable(s, a, allowed) then s.(artifacts := s.artifacts[a := s.artifacts[a].(deleted := true)]) else s
  }

  class ArtifactService {
    const codec: Codec
    var artifacts: seq<Artifact>
    var versions: seq<Version>

    ghost function Now(): State
      reads this
    {
      State(artifacts, versions)
    }

    constructor (codec: Codec, artifacts: seq<Artifact>, versions: seq<Version>)
      ensures this.codec == codec && Now() == State(artifacts, versions)
    {
      this.codec, this.artifacts, this.versions := codec, artifacts, versions;
    }

    method CreateVersion(a: ArtifactId, number: nat, content: Content) returns (id: VersionId)
      modifies this`versions
      ensures id == |old(versions)|
      ensures versions == old(versions) + [Version(a, number, content, codec.hash(content))]
    {
      id := |versions|;
      versions := versions + [Version(a, number, content, codec.hash(content))];
    }

    method UpdateArtifact(a: ArtifactId, content: Content, current: VersionId)
      requires a < |artifacts|
      modifies this`artifacts
      ensures artifacts == old(artifacts)[a := old(artifacts)[a].(content := content, current := Some(current))]
    {
      var row := artifacts[a];
      row := row.(content := content);
      row := row.(current := Some(current));
      artifacts := artifacts[a := row];
    }

    method Create(content: Content, allowed: bool) returns (id: Option<ArtifactId>)
      modifies this
      ensures Now() == After(codec, old(Now()), Call.Create(content, allowed))
      ensures id == if codec.size(content) <= codec.maxSize && allowed then Some(|old(artifacts)|) else None
      ensures id.None? ==> Now() == old(Now())
      ensures id.Some? ==> artifacts == old(artifacts) + [Artifact(content, Some(|old(versions)|), false)] &&
                           versions == old(versions) + [Version(id.value, 1, content, codec.hash(content))]
    {
      if codec.size(content) > codec.maxSize || !allowed {
        return None;
      }
      var a := |artifacts|;
      artifacts := artifacts + [Artifact(content, None, false)];
      var v := CreateVersion(a, 1, content);
      UpdateArtifact(a, content, v);
      id := Some(a);
    }

    method AddVersion(a: ArtifactId, content: Content, allowed: bool) returns (id: Option<VersionId>)
      modifies this
      ensures Now() == After(codec, old(Now()), Call.AddVersion(a, content, allowed))
      ensures id.Some? <==> codec.size(content) <= codec.maxSize &&
                            a < |old(artifacts)| && !old(artifacts)[a].deleted && allowed
      ensures id.None? ==> Now() == old(Now())
      ensures id.Some? ==> id.value < |versions| && versions[id.value].artifact == a &&
                           versions[id.value].hash == codec.hash(content) &&
                           (|versions| > |old(versions)| ==> a < |artifacts| && artifacts[a].current == id)
    {
      if codec.size(content) > codec.maxSize {
        return None;
      }
      if a >= |artifacts| || artifacts[a].deleted || !allowed {
        return None;
      }
      var existing := ByHash(versions, a, codec.hash(content));
      if existing.Some? {
        if artifacts[a].current != existing {
          UpdateArtifact(a, versions[existing.value].content, existing.value);
        }
        return existing;
      }
      var next := MaxNumber(versions, a) + 1;
      var v := CreateVersion(a, next, content);
      UpdateArtifact(a, content, v);
      id := Some(v);
    }

    method RestoreVersion(a: ArtifactId, number: nat, allowed: bool) returns (id: Option<VersionId>)
      modifies this
      ensures Now() == After(codec, old(Now()), Call.Restore(a, number, allowed))
      ensures id.Some? <==> a < |old(artifacts)| && !old(artifacts)[a].deleted && allowed &&
                            ByNumber(old(versions), a, number).Some?
      ensures id.None? ==> Now() == old(Now())
      ensures id.Some? ==> id.value == |old(versions)| && |versions| == |old(versions)| + 1
    {
      if a >= |artifacts| || artifacts[a].deleted || !allowed {
        return None;
      }
      var source := ByNumber(versions, a, number);
      if source.None? {
        return None;
      }
      var content := versions[source.value].content;
      var next := MaxNumber(versions, a) + 1;
      var v := CreateVersion(a, next, content);
      UpdateArtifact(a, content, v);
      id := Some(v);
    }

    method Delete(a: ArtifactId, allowed: bool) returns (ok: bool)
      modifies this`artifacts
      ensures Now() == After(codec, old(Now()), Call.Delete(a, allowed))
      ensures ok <==> a < |old(artifacts)| && !old(artifacts)[a].deleted && allowed
      ensures !ok ==> Now() == old(Now())
      ensures ok ==> a < |old(artifacts)| && artifacts == old(artifacts)[a := old(artifacts)[a].(deleted := true)]
    {
      if a >= |artifacts| || artifacts[a].deleted || !allowed {
        return false;
      }
      artifacts := artifacts[a := artifacts[a].(deleted := true)];
      ok := true;
    }
  }

  /** The migration's loop: version 1 for every row, and the pointer to it. */
  method Backfill(codec: Codec, artifacts: seq<Artifact>) returns (s: State)
    ensures |s.artifacts| == |artifacts| == |s.versions|
    ensures forall a :: 0 <= a < |artifacts| ==>
              s.versions[a] == Version(a, 1, artifacts[a].content, codec.hash(artifacts[a].content)) &&
              s.artifacts[a] == artifacts[a].(current := Some(a))
  {
    s := State(artifacts, []);
    for i := 0 to |artifacts|
      invariant |s.artifacts| == |artifacts| && |s.versions| == i
      invariant forall a :: 0 <= a < i ==>
                  s.versions[a] == Version(a, 1, artifacts[a].content, codec.hash(artifacts[a].content)) &&
                  s.artifacts[a] == artifacts[a].(current := Some(a))
      invariant forall a :: i <= a < |artifacts| ==> s.artifacts[a] == artifacts[a]
    {
      var row := artifacts[i];
      s := s.(versions := s.versions + [Version(i, 1, row.content, codec.hash(row.content))]);
      s := s.(artifacts := s.artifacts[i := s.artifacts[i].(current := Some(i))]);
    }
  }
}

/** What every history of versions keeps. */
module ArtifactProofs {
  import opened Common
  import opened Artifacts

  function Run(codec: Codec, s: State, calls: seq<Call>): State
    decreases |calls|
  {
    if calls == [] then s else Run(codec, After(codec, s, calls[0]), calls[1..])
  }

  ghost predicate NumbersOk(versions: seq<Version>, a: ArtifactId) {
    forall k :: 0 <= k < |Of(versions, a)| ==> Of(versions, a)[k].number == k + 1
  }

  ghost predicate PointerOk(s: State, a: ArtifactId)
    requires a < |s.artifacts|
  {
    var row := s.artifacts[a];
    && (row.current.None? <==> Of(s.versions, a) == [])
    && (row.current.Some? ==>
          row.current.value < |s.versions| &&
          s.versions[row.current.value].artifact == a &&
          s.versions[row.current.value].content == row.content)
  }

  /**
   Numbered 1..n without gaps; the pointer is set exactly when n > 0, to an own version with the
   artifact's content.
   */
  ghost predicate Inv(codec: Codec, s: State) {
    && (forall a: ArtifactId :: NumbersOk(s.versions, a))
    && (forall a :: 0 <= a < |s.artifacts| ==> PointerOk(s, a))
    && (forall i :: 0 <= i < |s.versions| ==>
          s.versions[i].artifact < |s.artifacts| && s.versions[i].hash == codec.hash(s.versions[i].content))
  }

  // ----- laws of the queries -----

  lemma OfSnoc(versions: seq<Version>, v: Version, a: ArtifactId)
    ensures Of(versions + [v], a) == Of(versions, a) + if v.artifact == a then [v] else []
    ensures MaxNumber(versions + [v], a)
         == if v.artifact == a && MaxNumber(versions, a) < v.number then v.number else MaxNumber(versions, a)
  {
    assert (versions + [v])[..|versions|] == versions;
  }

  lemma {:induction false} OfAppend(versions: seq<Version>, more: seq<Version>, a: ArtifactId)
    ensures Of(versions, a) <= Of(versions + more, a)
    decreases |more|
  {
    if more == [] {
      assert versions + more == versions;
    } else {
      var init := more[..|more| - 1];
      OfAppend(versions, init, a);
      assert versions + more == (versions + init) + [more[|more| - 1]];
      OfSnoc(versions + init, more[|more| - 1], a);
    }
  }

  lemma {:induction false} MembersOf(versions: seq<Version>, a: ArtifactId)
    ensures forall v :: v in Of(versions, a) <==> v in versions && v.artifact == a
  {
    if versions != [] {
      MembersOf(versions[..|versions| - 1], a);
      assert versions == versions[..|versions| - 1] + [versions[|versions| - 1]];
    }
  }

  lemma {:induction false} NumbersPrefix(versions: seq<Version>, n: nat, a: ArtifactId)
    requires n <= |versions| && NumbersOk(versions, a)
    ensures NumbersOk(versions[..n], a)
  {
    assert versions == versions[..n] + versions[n..];
    OfAppend(versions[..n], versions[n..], a);
  }

  lemma {:induction false} MaxNumberIsCount(versions: seq<Version>, a: ArtifactId)
    requires NumbersOk(versions, a)
    ensures MaxNumber(versions, a) == |Of(versions, a)|
  {
    if versions != [] {
      var init, last := versions[..|versions| - 1], versions[|versions| - 1];
      NumbersPrefix(versions, |versions| - 1, a);
      MaxNumberIsCount(init, a);
      if last.artifact == a {
        assert Of(versions, a)[|Of(init, a)|] == last;
      }
    }
  }

  /** A version is found by its number exactly when it is numbered 1..n, and it is the one at that place. */
  lemma NumberedVersion(versions: seq<Version>, a: ArtifactId, number: nat)
    requires NumbersOk(versions, a)
    ensures ByNumber(versions, a, number).Some? <==> 1 <= number <= |Of(versions, a)|
    ensures 1 <= number <= |Of(versions, a)| ==>
              versions[ByNumber(versions, a, number).value] == Of(versions, a)[number - 1]
  {
    MembersOf(versions, a);
    var found := ByNumber(versions, a, number);
    if found.Some? {
      assert versions[found.value] in Of(versions, a);
      var k :| 0 <= k < |Of(versions, a)| && Of(versions, a)[k] == versions[found.value];
    }
    if 1 <= number <= |Of(versions, a)| {
      var v := Of(versions, a)[number - 1];
      assert v in Of(versions, a);
      var i :| 0 <= i < |versions| && versions[i] == v;
    }
  }

  // ----- the invariant over every run -----

  lemma PointAtKeepsInv(codec: Codec, s: State, a: ArtifactId, v: VersionId)
    requires Inv(codec, s) && a < |s.artifacts| && v < |s.versions| && s.versions[v].artifact == a
    ensures Inv(codec, PointAt(s, a, v))
  {
    var t := PointAt(s, a, v);
    MembersOf(s.versions, a);
    assert s.versions[v] in Of(s.versions, a);
    forall b | 0 <= b < |t.artifacts|
      ensures PointerOk(t, b)
    {
      assert PointerOk(s, b);
    }
  }

  lemma AppendKeepsNumbers(versions: seq<Version>, v: Version, b: ArtifactId)
    requires NumbersOk(versions, v.artifact) && NumbersOk(versions, b)
    requires v.number == |Of(versions, v.artifact)| + 1
    ensures NumbersOk(versions + [v], b)
  {
    OfSnoc(versions, v, b);
  }

  lemma AppendKeepsPointer(codec: Codec, s: State, a: ArtifactId, content: Content, b: ArtifactId)
    requires a < |s.artifacts| && b < |s.artifacts| && PointerOk(s, b)
    ensures PointerOk(Append(codec, s, a, content), b)
  {
    var t := Append(codec, s, a, content);
    OfSnoc(s.versions, t.versions[|s.versions|], b);
  }

  /** A new row numbered |Of| + 1, with the pointer moved to it. */
  lemma AppendKeepsInv(codec: Codec, s: State, a: ArtifactId, content: Content)
    requires Inv(codec, s) && a < |s.artifacts|
    ensures Inv(codec, Append(codec, s, a, content))
  {
    assert NumbersOk(s.versions, a);
    MaxNumberIsCount(s.versions, a);
    var t := Append(codec, s, a, content);
    var v := t.versions[|s.versions|];
    assert t.versions == s.versions + [v];
    forall b: ArtifactId
      ensures NumbersOk(t.versions, b)
    {
      assert NumbersOk(s.versions, b);
      AppendKeepsNumbers(s.versions, v, b);
    }
    forall b | 0 <= b < |t.artifacts|
      ensures PointerOk(t, b)
    {
      assert PointerOk(s, b);
      AppendKeepsPointer(codec, s, a, content, b);
    }
  }

  lemma {:induction false} NoneOf(versions: seq<Version>, a: ArtifactId)
    requires forall i :: 0 <= i < |versions| ==> versions[i].artifact != a
    ensures Of(versions, a) == []
  {
    if versions != [] {
      NoneOf(versions[..|versions| - 1], a);
    }
  }

  lemma NewRowKeepsInv(codec: Codec, s: State, content: Content)
    requires Inv(codec, s)
    ensures Inv(codec, s.(artifacts := s.artifacts + [Artifact(content, None, false)]))
  {
    var t := s.(artifacts := s.artifacts + [Artifact(content, None, false)]);
    NoneOf(s.versions, |s.artifacts|);
    forall b | 0 <= b < |t.artifacts|
      ensures PointerOk(t, b)
    {
      if b < |s.artifacts| {
        assert PointerOk(s, b);
      }
    }
  }

  lemma CreateIsNewRowThenAppend(codec: Codec, s: State, content: Content)
    requires Inv(codec, s) && codec.size(content) <= codec.maxSize
    ensures var row := s.(artifacts := s.artifacts + [Artifact(content, None, false)]);
            After(codec, s, Create(content, true)) == Append(codec, row, |s.artifacts|, content)
  {
    NewRowKeepsInv(codec, s, content);
    var row := s.(artifacts := s.artifacts + [Artifact(content, None, false)]);
    assert PointerOk(row, |s.artifacts|);
    assert NumbersOk(s.versions, |s.artifacts|);
    MaxNumberIsCount(s.versions, |s.artifacts|);
  }

  lemma CallKeepsInv(codec: Codec, s: State, call: Call)
    requires Inv(codec, s)
    ensures Inv(codec, After(codec, s, call))
  {
    match call {
      case Create(content, allowed) =>
        if codec.size(content) <= codec.maxSize && allowed {
          CreateIsNewRowThenAppend(codec, s, content);
          NewRowKeepsInv(codec, s, content);
          var saved := s.(artifacts := s.artifacts + [Artifact(content, None, false)]);
          AppendKeepsInv(codec, saved, |s.artifacts|, content);
        }
      case SaveGenerated(content) => NewRowKeepsInv(codec, s, content);
      case AddVersion(a, content, allowed) =>
        if codec.size(content) <= codec.maxSize && Writable(s, a, allowed) {
          var existing := ByHash(s.versions, a, codec.hash(content));
          if existing.None? {
            AppendKeepsInv(codec, s, a, content);
          } else {
            PointAtKeepsInv(codec, s, a, existing.value);
          }
        }
      case Restore(a, number, allowed) =>
        if Writable(s, a, allowed) && ByNumber(s.versions, a, number).Some? {
          AppendKeepsInv(codec, s, a, s.versions[ByNumber(s.versions, a, number).value].content);
        }
      case Delete(a, allowed) => DeleteKeepsInv(codec, s, a, allowed);
    }
  }

  lemma DeleteKeepsInv(codec: Codec, s: State, a: ArtifactId, allowed: bool)
    requires Inv(codec, s)
    ensures Inv(codec, After(codec, s, Delete(a, allowed)))
  {
    var t := After(codec, s, Delete(a, allowed));
    forall b | 0 <= b < |t.artifacts|
      ensures PointerOk(t, b)
    {
      assert PointerOk(s, b);
    }
  }

  /** Every run keeps the invariant and only appends to the version table. */
  lemma {:induction false} RunKeepsInv(codec: Codec, s: State, calls: seq<Call>)
    requires Inv(codec, s)
    ensures Inv(codec, Run(codec, s, calls))
    ensures s.versions <= Run(codec, s, calls).versions
    ensures |s.artifacts| <= |Run(codec, s, calls).artifacts|
    decreases |calls|
  {
    if calls != [] {
      CallKeepsInv(codec, s, calls[0]);
      RunKeepsInv(codec, After(codec, s, calls[0]), calls[1..]);
    }
  }

  lemma EmptyInv(codec: Codec)
    ensures Inv(codec, State([], []))
  {
  }

  /** Old rows, none of them versioned, come out of the migration with the invariant and their content. */
  method MigrateKeepsInv(codec: Codec, artifacts: seq<Artifact>) returns (s: State)
    ensures Inv(codec, s) && HashesAgree(s.versions) && |s.artifacts| == |artifacts|
    ensures forall a :: 0 <= a < |artifacts| ==>
              s.artifacts[a].content == artifacts[a].content && |Of(s.versions, a)| == 1
  {
    s := Backfill(codec, artifacts);
    forall a: ArtifactId
      ensures Of(s.versions, a) == if a < |artifacts| then [s.versions[a]] else []
    {
      OneEach(s.versions, a);
    }
    forall a | 0 <= a < |s.artifacts|
      ensures PointerOk(s, a)
    {
    }
  }

  lemma {:induction false} OneEach(versions: seq<Version>, a: ArtifactId)
    requires forall i :: 0 <= i < |versions| ==> versions[i].artifact == i
    ensures Of(versions, a) == if a < |versions| then [versions[a]] else []
  {
    if versions != [] {
      OneEach(versions[..|versions| - 1], a);
    }
  }

  // ----- the counting law -----

  function Hashes(versions: seq<Version>, a: ArtifactId): set<nat> {
    set v | v in Of(versions, a) :: v.hash
  }

  /** A restore that succeeds is the only call that adds a version without adding a hash. */
  predicate Restores(codec: Codec, s: State, call: Call, a: ArtifactId) {
    call.Restore? && call.artifact == a && Writable(s, a, call.allowed) && ByNumber(s.versions, a, call.number).Some?
  }

  function CountRestores(codec: Codec, s: State, calls: seq<Call>, a: ArtifactId): nat
    decreases |calls|
  {
    if calls == [] then 0
    else
      var rest := CountRestores(codec, After(codec, s, calls[0]), calls[1..], a);
      if Restores(codec, s, calls[0], a) then 1 + rest else rest
  }

  lemma HashesSnoc(versions: seq<Version>, v: Version, a: ArtifactId)
    ensures Hashes(versions + [v], a) == Hashes(versions, a) + if v.artifact == a then {v.hash} else {}
    ensures |Of(versions + [v], a)| == |Of(versions, a)| + if v.artifact == a then 1 else 0
  {
    OfSnoc(versions, v, a);
  }

  lemma {:induction false} ByHashFinds(versions: seq<Version>, a: ArtifactId, hash: nat)
    ensures ByHash(versions, a, hash).Some? <==> hash in Hashes(versions, a)
  {
    if versions != [] {
      var init, last := versions[..|versions| - 1], versions[|versions| - 1];
      assert versions == init + [last];
      ByHashFinds(init, a, hash);
      HashesSnoc(init, last, a);
    }
  }

  function Surplus(versions: seq<Version>, a: ArtifactId): int {
    |Of(versions, a)| - |Hashes(versions, a)|
  }

  lemma AppendCounts(versions: seq<Version>, v: Version, a: ArtifactId)
    ensures Surplus(versions + [v], a)
         == Surplus(versions, a) + if v.artifact == a && v.hash in Hashes(versions, a) then 1 else 0
  {
    HashesSnoc(versions, v, a);
    var prior := Hashes(versions, a);
    if v.hash in prior {
      assert prior + {v.hash} == prior;
    } else {
      assert |prior + {v.hash}| == |prior| + 1;
    }
  }

  /** The call adds to the surplus exactly if it restores. */
  ghost predicate Counts(codec: Codec, s: State, call: Call, a: ArtifactId) {
    Surplus(After(codec, s, call).versions, a) == Surplus(s.versions, a) + if Restores(codec, s, call, a) then 1 else 0
  }

  lemma CreateCallCounts(codec: Codec, s: State, content: Content, allowed: bool, a: ArtifactId)
    requires Inv(codec, s)
    ensures Counts(codec, s, Create(content, allowed), a)
  {
    CreateCounts(codec, s, content, a);
  }

  lemma AddCallCounts(codec: Codec, s: State, b: ArtifactId, content: Content, allowed: bool, a: ArtifactId)
    requires Inv(codec, s)
    ensures Counts(codec, s, AddVersion(b, content, allowed), a)
  {
    AddCounts(codec, s, b, content, a);
  }

  lemma RestoreCallCounts(codec: Codec, s: State, b: ArtifactId, number: nat, allowed: bool, a: ArtifactId)
    requires Inv(codec, s)
    ensures Counts(codec, s, Restore(b, number, allowed), a)
  {
    RestoreCounts(codec, s, b, number, a);
  }

  lemma CallCounts(codec: Codec, s: State, call: Call, a: ArtifactId)
    requires Inv(codec, s)
    ensures Counts(codec, s, call, a)
  {
    match call {
      case Create(content, allowed) => CreateCallCounts(codec, s, content, allowed, a);
      case AddVersion(b, content, allowed) => AddCallCounts(codec, s, b, content, allowed, a);
      case Restore(b, number, allowed) => RestoreCallCounts(codec, s, b, number, allowed, a);
      case _ =>
    }
  }

  lemma CreateCounts(codec: Codec, s: State, content: Content, a: ArtifactId)
    requires Inv(codec, s)
    ensures var v := Version(|s.artifacts|, 1, content, codec.hash(content));
            Surplus(s.versions + [v], a) == Surplus(s.versions, a)
  {
    NoneOf(s.versions, |s.artifacts|);
    AppendCounts(s.versions, Version(|s.artifacts|, 1, content, codec.hash(content)), a);
  }

  lemma AddCounts(codec: Codec, s: State, b: ArtifactId, content: Content, a: ArtifactId)
    ensures ByHash(s.versions, b, codec.hash(content)).None? ==>
              var v := Version(b, MaxNumber(s.versions, b) + 1, content, codec.hash(content));
              Surplus(s.versions + [v], a) == Surplus(s.versions, a)
  {
    ByHashFinds(s.versions, b, codec.hash(content));
    AppendCounts(s.versions, Version(b, MaxNumber(s.versions, b) + 1, content, codec.hash(content)), a);
  }

  lemma HashIsHeld(versions: seq<Version>, i: VersionId)
    requires i < |versions|
    ensures versions[i].hash in Hashes(versions, versions[i].artifact)
  {
    MembersOf(versions, versions[i].artifact);
    assert versions[i] in Of(versions, versions[i].artifact);
  }

  lemma RestoreCounts(codec: Codec, s: State, b: ArtifactId, number: nat, a: ArtifactId)
    requires Inv(codec, s)
    ensures ByNumber(s.versions, b, number).Some? ==>
              var content := s.versions[ByNumber(s.versions, b, number).value].content;
              var v := Version(b, MaxNumber(s.versions, b) + 1, content, codec.hash(content));
              Surplus(s.versions + [v], a) == Surplus(s.versions, a) + if a == b then 1 else 0
  {
    var found := ByNumber(s.versions, b, number);
    if found.Some? {
      var source := s.versions[found.value];
      HashIsHeld(s.versions, found.value);
      AppendCounts(s.versions, Version(b, MaxNumber(s.versions, b) + 1, source.content, codec.hash(source.content)), a);
    }
  }

  /** Over any history, versions = distinct hashes + successful restores. */
  lemma {:induction false} VersionsAreHashesPlusRestores(codec: Codec, s: State, calls: seq<Call>, a: ArtifactId)
    requires Inv(codec, s)
    ensures Surplus(Run(codec, s, calls).versions, a) == Surplus(s.versions, a) + CountRestores(codec, s, calls, a)
    decreases |calls|
  {
    if calls != [] {
      CallCounts(codec, s, calls[0], a);
      CallKeepsInv(codec, s, calls[0]);
      VersionsAreHashesPlusRestores(codec, After(codec, s, calls[0]), calls[1..], a);
    }
  }

  lemma VersionsFromNothing(codec: Codec, calls: seq<Call>, a: ArtifactId)
    ensures var t := Run(codec, State([], []), calls);
            |Of(t.versions, a)| == |Hashes(t.versions, a)| + CountRestores(codec, State([], []), calls, a)
  {
    EmptyInv(codec);
    assert Hashes([], a) == {};
    VersionsAreHashesPlusRestores(codec, State([], []), calls, a);
  }

  // ----- who can change an artifact, and what deleting ends -----

  /** The call is about this artifact, and whoever makes it may write it. */
  predicate Writes(call: Call, a: ArtifactId) {
    (call.AddVersion? || call.Restore? || call.Delete?) && call.artifact == a && call.allowed
  }

  /** The artifact's row and versions are as before. */
  ghost predicate SameArtifact(s: State, t: State, a: ArtifactId)
    requires a < |s.artifacts|
  {
    a < |t.artifacts| && t.artifacts[a] == s.artifacts[a] && Of(t.versions, a) == Of(s.versions, a)
  }

  lemma AppendTouchesOne(codec: Codec, s: State, b: ArtifactId, content: Content, a: ArtifactId)
    requires a < |s.artifacts| && b < |s.artifacts| && a != b
    ensures SameArtifact(s, Append(codec, s, b, content), a)
  {
    OfSnoc(s.versions, Append(codec, s, b, content).versions[|s.versions|], a);
  }

  /** Only a permitted call about an artifact that is not deleted changes its row or its versions. */
  lemma OnlyWritesTouch(codec: Codec, s: State, call: Call, a: ArtifactId)
    requires a < |s.artifacts| && (!Writes(call, a) || s.artifacts[a].deleted)
    ensures SameArtifact(s, After(codec, s, call), a)
  {
    match call {
      case Create(content, _) => OfSnoc(s.versions, Version(|s.artifacts|, 1, content, codec.hash(content)), a);
      case SaveGenerated(_) =>
      case AddVersion(b, content, allowed) =>
        if Writable(s, b, allowed) {
          AppendTouchesOne(codec, s, b, content, a);
        }
      case Restore(b, number, allowed) =>
        if Writable(s, b, allowed) && ByNumber(s.versions, b, number).Some? {
          AppendTouchesOne(codec, s, b, s.versions[ByNumber(s.versions, b, number).value].content, a);
        }
      case Delete(_, _) =>
    }
  }

  lemma {:induction false} DeletedIsFrozen(codec: Codec, s: State, calls: seq<Call>, a: ArtifactId)
    requires a < |s.artifacts| && s.artifacts[a].deleted
    ensures SameArtifact(s, Run(codec, s, calls), a)
    decreases |calls|
  {
    if calls != [] {
      OnlyWritesTouch(codec, s, calls[0], a);
      DeletedIsFrozen(codec, After(codec, s, calls[0]), calls[1..], a);
    }
  }

  /** A permitted delete marks the artifact, and no later call changes its content, pointer or versions. */
  lemma DeleteIsFinal(codec: Codec, s: State, calls: seq<Call>, a: ArtifactId)
    requires a < |s.artifacts|
    ensures var t := Run(codec, After(codec, s, Delete(a, true)), calls);
            && a < |t.artifacts| && t.artifacts[a] == s.artifacts[a].(deleted := true)
            && Of(t.versions, a) == Of(s.versions, a)
  {
    DeletedIsFrozen(codec, After(codec, s, Delete(a, true)), calls, a);
  }

  lemma CallDeletesIff(codec: Codec, s: State, call: Call, a: ArtifactId)
    requires a < |s.artifacts|
    ensures a < |After(codec, s, call).artifacts|
    ensures After(codec, s, call).artifacts[a].deleted <==>
              s.artifacts[a].deleted || (call.Delete? && Writes(call, a))
  {
  }

  /** Over any run, an artifact is deleted exactly when it was, or a permitted delete names it. */
  lemma {:induction false} DeletedIff(codec: Codec, s: State, calls: seq<Call>, a: ArtifactId)
    requires a < |s.artifacts|
    ensures a < |Run(codec, s, calls).artifacts|
    ensures Run(codec, s, calls).artifacts[a].deleted <==>
              s.artifacts[a].deleted || exists k :: 0 <= k < |calls| && calls[k].Delete? && Writes(calls[k], a)
    decreases |calls|
  {
    if calls != [] {
      CallDeletesIff(codec, s, calls[0], a);
      DeletedIff(codec, After(codec, s, calls[0]), calls[1..], a);
      assert forall k :: 0 <= k < |calls[1..]| ==> calls[1..][k] == calls[k + 1];
    }
  }

  // ----- adding and restoring -----

  /** What a generator saves has its content and no version, so that there is none to restore. */
  lemma GeneratedHasNoVersion(codec: Codec, s: State, content: Content, number: nat, allowed: bool)
    requires Inv(codec, s)
    ensures var a, t := |s.artifacts|, After(codec, s, SaveGenerated(content));
            && t.artifacts == s.artifacts + [Artifact(content, None, false)] && t.versions == s.versions
            && Of(t.versions, a) == [] && After(codec, t, Restore(a, number, allowed)) == t
  {
    NoneOf(s.versions, |s.artifacts|);
    assert NumbersOk(s.versions, |s.artifacts|);
    NumberedVersion(s.versions, |s.artifacts|, number);
  }

  /**
   A permitted add within the size limit makes the newest version with the content's hash the current one: a version
   there already, with the table unchanged, or else one more version at the end, holding the content.
   */
  lemma AddMakesCurrent(codec: Codec, s: State, call: Call)
    requires Inv(codec, s) && call.AddVersion? && codec.size(call.content) <= codec.maxSize
    requires call.artifact < |s.artifacts| && !s.artifacts[call.artifact].deleted && call.allowed
    ensures var (a, hash, t) := (call.artifact, codec.hash(call.content), After(codec, s, call));
            && t.artifacts[a].current.Some? && t.artifacts[a].current.value < |t.versions|
            && HasHash(t.versions[t.artifacts[a].current.value], a, hash)
            && (forall i :: 0 <= i < |t.versions| && HasHash(t.versions[i], a, hash) ==>
                  t.versions[i].number <= t.versions[t.artifacts[a].current.value].number)
            && (if exists i :: 0 <= i < |s.versions| && HasHash(s.versions[i], a, hash) then t.versions == s.versions
                else t.versions == s.versions + [Version(a, |Of(s.versions, a)| + 1, call.content, hash)])
  {
    assert PointerOk(s, call.artifact) && NumbersOk(s.versions, call.artifact);
    ByHashMisses(s.versions, call.artifact, codec.hash(call.content));
    ByHashIsNewest(s.versions, call.artifact, codec.hash(call.content));
    MaxNumberIsCount(s.versions, call.artifact);
  }

  lemma {:induction false} ByHashIsNewest(versions: seq<Version>, a: ArtifactId, hash: nat)
    ensures var r := ByHash(versions, a, hash);
            r.Some? ==> forall i :: 0 <= i < |versions| && HasHash(versions[i], a, hash) ==>
              versions[i].number <= versions[r.value].number
  {
    if versions != [] {
      ByHashIsNewest(versions[..|versions| - 1], a, hash);
      ByHashMisses(versions[..|versions| - 1], a, hash);
    }
  }

  lemma ByHashOfLast(versions: seq<Version>, v: Version)
    requires forall i :: 0 <= i < |versions| && versions[i].artifact == v.artifact ==> versions[i].number <= v.number
    ensures ByHash(versions + [v], v.artifact, v.hash) == Some(|versions|)
  {
    assert (versions + [v])[..|versions|] == versions;
  }

  /** Adding the same content twice is adding it once. */
  lemma AddTwiceIsAddOnce(codec: Codec, s: State, call: Call)
    requires Inv(codec, s) && call.AddVersion?
    ensures After(codec, After(codec, s, call), call) == After(codec, s, call)
  {
    var t := After(codec, s, call);
    if t.versions != s.versions {
      var v := t.versions[|s.versions|];
      assert NumbersOk(s.versions, call.artifact);
      MaxNumberIsCount(s.versions, call.artifact);
      MembersOf(s.versions, call.artifact);
      forall i | 0 <= i < |s.versions| && s.versions[i].artifact == v.artifact
        ensures s.versions[i].number <= v.number
      {
        assert s.versions[i] in Of(s.versions, call.artifact);
      }
      ByHashOfLast(s.versions, v);
    }
  }

  predicate HasHash(v: Version, a: ArtifactId, hash: nat) {
    v.artifact == a && v.hash == hash
  }

  /** Versions of one artifact with one hash hold one content. */
  ghost predicate HashesAgree(versions: seq<Version>) {
    forall i, j :: 0 <= i < |versions| && 0 <= j < |versions| &&
                   HasHash(versions[i], versions[j].artifact, versions[j].hash) ==>
      versions[i].content == versions[j].content
  }

  lemma AppendKeepsAgreement(versions: seq<Version>, v: Version)
    requires HashesAgree(versions)
    requires forall i :: 0 <= i < |versions| && HasHash(versions[i], v.artifact, v.hash) ==>
               versions[i].content == v.content
    ensures HashesAgree(versions + [v])
  {
  }

  lemma {:induction false} ByHashMisses(versions: seq<Version>, a: ArtifactId, hash: nat)
    ensures ByHash(versions, a, hash).None? <==>
              forall i :: 0 <= i < |versions| ==> !HasHash(versions[i], a, hash)
  {
    if versions != [] {
      ByHashMisses(versions[..|versions| - 1], a, hash);
    }
  }

  lemma CallKeepsAgreement(codec: Codec, s: State, call: Call)
    requires Inv(codec, s) && HashesAgree(s.versions)
    ensures HashesAgree(After(codec, s, call).versions)
  {
    var t := After(codec, s, call);
    if t.versions != s.versions {
      var v := t.versions[|s.versions|];
      if call.AddVersion? {
        ByHashMisses(s.versions, call.artifact, v.hash);
      }
      AppendKeepsAgreement(s.versions, v);
    }
  }

  /** Dedup by hash keeps it so: over any run, versions of one artifact with one hash hold one content. */
  lemma {:induction false} OneHashOneContent(codec: Codec, s: State, calls: seq<Call>)
    requires Inv(codec, s) && HashesAgree(s.versions)
    ensures HashesAgree(Run(codec, s, calls).versions)
    decreases |calls|
  {
    if calls != [] {
      CallKeepsAgreement(codec, s, calls[0]);
      CallKeepsInv(codec, s, calls[0]);
      OneHashOneContent(codec, After(codec, s, calls[0]), calls[1..]);
    }
  }

  /** A successful add leaves the content of the newest version with its hash, or the content added if there is none. */
  lemma AddedContentIs(codec: Codec, s: State, call: Call)
    requires Inv(codec, s) && call.AddVersion? && codec.size(call.content) <= codec.maxSize
    requires Writable(s, call.artifact, call.allowed)
    ensures var existing := ByHash(s.versions, call.artifact, codec.hash(call.content));
            After(codec, s, call).artifacts[call.artifact].content
              == if existing.None? then call.content else s.versions[existing.value].content
  {
    assert PointerOk(s, call.artifact);
  }

  /** It leaves the content added exactly when no version of the artifact has the same hash and other content. */
  lemma AddedContentIff(codec: Codec, s: State, call: Call)
    requires Inv(codec, s) && HashesAgree(s.versions)
    requires call.AddVersion? && codec.size(call.content) <= codec.maxSize
    requires Writable(s, call.artifact, call.allowed)
    ensures After(codec, s, call).artifacts[call.artifact].content == call.content <==>
              forall i :: 0 <= i < |s.versions| && HasHash(s.versions[i], call.artifact, codec.hash(call.content)) ==>
                s.versions[i].content == call.content
  {
    AddedContentIs(codec, s, call);
    ByHashMisses(s.versions, call.artifact, codec.hash(call.content));
  }

  /** Whatever happens in between, restoring k brings back what version k held, as the newest version. */
  lemma RestoreBringsBack(codec: Codec, s: State, calls: seq<Call>, a: ArtifactId, k: nat)
    requires Inv(codec, s) && 1 <= k <= |Of(s.versions, a)| && a < |s.artifacts|
    requires Writable(Run(codec, s, calls), a, true)
    ensures var later := Run(codec, s, calls);
            var t := After(codec, later, Restore(a, k, true));
            && |t.versions| == |later.versions| + 1
            && t.artifacts[a].content == Of(s.versions, a)[k - 1].content
            && t.artifacts[a].current == Some(|later.versions|)
            && Of(t.versions, a) == Of(later.versions, a) + [t.versions[|later.versions|]]
            && t.versions[|later.versions|].number == |Of(later.versions, a)| + 1
  {
    var later := Run(codec, s, calls);
    RunKeepsInv(codec, s, calls);
    assert later.versions == s.versions + later.versions[|s.versions|..];
    OfAppend(s.versions, later.versions[|s.versions|..], a);
    assert NumbersOk(later.versions, a);
    NumberedVersion(later.versions, a, k);
    MaxNumberIsCount(later.versions, a);
    var t := After(codec, later, Restore(a, k, true));
    OfSnoc(later.versions, t.versions[|later.versions|], a);
  }
}
