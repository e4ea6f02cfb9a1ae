/** The Spring Data enricher (backend/app/analyzers/enrichers/spring_data.py): interfaces whose
  * supertypes name a Spring Data repository base become Repository nodes, with the kind of
  * repository from the first such supertype and the entity type read from the generics of the
  * first `extends`/`implements` of a repository base in the source. */
module SpringData {
  import opened Wrappers
  import opened Strs
  import opened Metamodel
  import opened EnricherBase
  import opened NodeWrites

  /** The repository bases, in the order the source pattern lists them. */
  const RepoNames: seq<string> := ["JpaRepository", "CrudRepository", "PagingAndSortingRepository", "MongoRepository",
                                   "ReactiveMongoRepository", "ReactiveCrudRepository", "ElasticsearchRepository",
                                   "RedisRepository"]

  /** The kind of repository each base stands for. */
  const RepoKinds: map<string, string> := map[
    "JpaRepository" := "JPA", "CrudRepository" := "CRUD", "PagingAndSortingRepository" := "JPA",
    "MongoRepository" := "Mongo", "ReactiveMongoRepository" := "Mongo", "ReactiveCrudRepository" := "Reactive",
    "ElasticsearchRepository" := "Elasticsearch", "RedisRepository" := "Redis"]

  /** The kinds table and the pattern list name the same bases. */
  lemma RepoTablesAgree()
    ensures forall n :: n in RepoKinds <==> n in RepoNames
    ensures forall n :: n in RepoKinds ==> RepoKinds[n] in {"JPA", "CRUD", "Mongo", "Reactive", "Elasticsearch", "Redis"}
  {
  }

  // ---------------------------------------------------------------------------------------
  // Repository kind
  // ---------------------------------------------------------------------------------------

  /** The repository kind of the first supertype that is a repository base; none when no
    * supertype is one. */
  function RepoType(supertypes: seq<string>): (r: Option<string>)
    ensures r.None? <==> forall i :: 0 <= i < |supertypes| ==> supertypes[i] !in RepoKinds
    ensures r.Some? ==> exists i :: 0 <= i < |supertypes| && supertypes[i] in RepoKinds && r.value == RepoKinds[supertypes[i]]
                          && forall j :: 0 <= j < i ==> supertypes[j] !in RepoKinds
  {
    if supertypes == [] then None
    else if supertypes[0] in RepoKinds then Some(RepoKinds[supertypes[0]])
    else
      var rest := RepoType(supertypes[1..]);
      if rest.Some? then
        ghost var i :| 0 <= i < |supertypes[1..]| && supertypes[1..][i] in RepoKinds && rest.value == RepoKinds[supertypes[1..][i]]
                       && forall j :: 0 <= j < i ==> supertypes[1..][j] !in RepoKinds;
        assert supertypes[i + 1] == supertypes[1..][i];
        assert forall j :: 0 <= j < i + 1 ==> supertypes[j] !in RepoKinds by {
          forall j | 0 <= j < i + 1
            ensures supertypes[j] !in RepoKinds
          {
            if j > 0 {
              assert supertypes[j] == supertypes[1..][j - 1];
            }
          }
        }
        rest
      else
        assert forall i :: 0 <= i < |supertypes| ==> supertypes[i] !in RepoKinds by {
          forall i | 0 <= i < |supertypes|
            ensures supertypes[i] !in RepoKinds
          {
            if i > 0 {
              assert supertypes[i] == supertypes[1..][i - 1];
            }
          }
        }
        None
  }

  // ---------------------------------------------------------------------------------------
  // Entity type: the pattern `(?:extends|implements)\s+(?:<bases>)\s*<\s*(\w+)`
  // ---------------------------------------------------------------------------------------

  /** A character of `\w` (ASCII letters, digits and underscore). */
  predicate IsWordChar(c: char) {
    'a' <= c <= 'z' || 'A' <= c <= 'Z' || '0' <= c <= '9' || c == '_'
  }

  /** The end of the run of whitespace from `i` (`\s*`). */
  function SpaceEnd(s: string, i: nat): (r: nat)
    requires i <= |s|
    ensures i <= r <= |s| && (forall k :: i <= k < r ==> IsSpace(s[k])) && (r < |s| ==> !IsSpace(s[r]))
    decreases |s| - i
  {
    if i < |s| && IsSpace(s[i]) then SpaceEnd(s, i + 1) else i
  }

  /** The end of the run of word characters from `i` (`\w*`, greedy). */
  function WordEnd(s: string, i: nat): (r: nat)
    requires i <= |s|
    ensures i <= r <= |s| && (forall k :: i <= k < r ==> IsWordChar(s[k])) && (r < |s| ==> !IsWordChar(s[r]))
    decreases |s| - i
  {
    if i < |s| && IsWordChar(s[i]) then WordEnd(s, i + 1) else i
  }

  /** `w` occurs in `s` at `i`. */
  predicate At(s: string, i: nat, w: string) {
    i + |w| <= |s| && s[i..i + |w|] == w
  }

  /** The end of the first base of `RepoNames[k..]` that occurs at `i`, if any. */
  function RepoNameEnd(s: string, i: nat, k: nat): (r: Option<nat>)
    requires i <= |s| && k <= |RepoNames|
    ensures r.Some? ==> exists j :: k <= j < |RepoNames| && At(s, i, RepoNames[j]) && r.value == i + |RepoNames[j]|
    ensures r.None? ==> forall j :: k <= j < |RepoNames| ==> !At(s, i, RepoNames[j])
    decreases |RepoNames| - k
  {
    if k == |RepoNames| then None
    else if At(s, i, RepoNames[k]) then Some(i + |RepoNames[k]|)
    else RepoNameEnd(s, i, k + 1)
  }

  /** The pattern matched at `i`: the captured entity type. The name alternatives and the
    * whitespace runs leave no room for backtracking, so greedy matching decides the match. */
  function EntityAt(s: string, i: nat): (r: Option<string>)
    requires i <= |s|
    ensures r.Some? ==> r.value != [] && forall k :: 0 <= k < |r.value| ==> IsWordChar(r.value[k])
    ensures r.Some? ==> At(s, i, "extends") || At(s, i, "implements")
  {
    var kw := if At(s, i, "extends") then Some(i + 7) else if At(s, i, "implements") then Some(i + 10) else None;
    match kw
    case None => None
    case Some(k) =>
      var n := SpaceEnd(s, k);
      if n == k then None
      else match RepoNameEnd(s, n, 0)
        case None => None
        case Some(e) =>
          var lt := SpaceEnd(s, e);
          if lt < |s| && s[lt] == '<' then
            var w := SpaceEnd(s, lt + 1);
            var we := WordEnd(s, w);
            if we == w then None else Some(s[w..we])
          else None
  }

  /** `re.search` from `i`: the capture of the leftmost match. */
  function SearchFrom(s: string, i: nat): (r: Option<string>)
    requires i <= |s|
    ensures r.None? <==> forall j :: i <= j <= |s| ==> EntityAt(s, j).None?
    ensures r.Some? ==> exists j :: i <= j <= |s| && EntityAt(s, j) == r && forall k :: i <= k < j ==> EntityAt(s, k).None?
    decreases |s| - i
  {
    match EntityAt(s, i)
    case Some(e) => Some(e)
    case None =>
      if i == |s| then None
      else
        SearchFrom(s, i + 1)
  }

  /** The entity type of a repository: the capture of the first match in its source, "" when
    * there is none. */
  function EntityType(source: string): (r: string)
    ensures forall k :: 0 <= k < |r| ==> IsWordChar(r[k])
    ensures r == "" <==> forall j :: 0 <= j <= |source| ==> EntityAt(source, j).None?
    ensures r != "" ==> exists j :: 0 <= j <= |source| && EntityAt(source, j) == Some(r)
                         && forall k :: 0 <= k < j ==> EntityAt(source, k).None?
  {
    match SearchFrom(source, 0) case Some(e) => e case None => ""
  }

  // ---------------------------------------------------------------------------------------
  // The enricher
  // ---------------------------------------------------------------------------------------

  /** A class row of the query: kind, stored supertype names and source. */
  datatype ClassRow = ClassRow(fullName: string, name: string, kind: string, supertypes: StoredJson<string>,
                               source: Option<string>)

  datatype RepositoryNode = RepositoryNode(name: string, entityType: string, repoType: string, classFullName: string)

  /** The node an interface row gets: none unless it is an interface with stored supertypes of
    * which one is a repository base; otherwise its name, entity type and repository kind. */
  function RepositoryOf(row: ClassRow): Option<RepositoryNode> {
    if row.kind != "interface" || row.supertypes.Null? then None
    else match RepoType(ParseJson(row.supertypes))
      case None => None
      case Some(t) =>
        var src := match row.source case Some(s) => s case None => "";
        Some(RepositoryNode(row.name, EntityType(src), t, row.fullName))
  }

  /** A row is a repository exactly when it is an interface and one of its supertypes is a
    * repository base; its kind is that of the first such supertype. */
  lemma RepositoryIff(row: ClassRow)
    ensures RepositoryOf(row).Some? <==>
              row.kind == "interface" && exists i :: 0 <= i < |ParseJson(row.supertypes)| && ParseJson(row.supertypes)[i] in RepoKinds
    ensures RepositoryOf(row).Some? ==>
              var sts := ParseJson(row.supertypes);
              exists i :: 0 <= i < |sts| && sts[i] in RepoKinds && RepositoryOf(row).value.repoType == RepoKinds[sts[i]]
                          && forall j :: 0 <= j < i ==> sts[j] !in RepoKinds
  {
  }

  /** `enrich_from_graph`: one Repository node per repository row whose write succeeds, and the
    * count of them; every node written is a repository row's, and without failures all are. */
  method EnrichFromGraph(rows: seq<ClassRow>, failing: set<string>) returns (written: seq<RepositoryNode>, repositories: nat)
    ensures repositories == |written| <= NodeRows(rows, RepositoryOf)
    ensures forall n :: n in written <==> exists r :: r in rows && RepositoryOf(r) == Some(n) && r.fullName !in failing
    ensures failing == {} ==> repositories == NodeRows(rows, RepositoryOf)
  {
    written, repositories := WriteAll(rows, RepositoryOf, (r: ClassRow) => r.fullName, failing);
    WrittenMembers(rows, RepositoryOf, (r: ClassRow) => r.fullName, failing);
    WrittenCount(rows, RepositoryOf, (r: ClassRow) => r.fullName, failing);
  }
}
