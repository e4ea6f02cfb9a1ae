/** The technology scanner (backend/app/analyzers/technology_scanner.py): which technologies a
  * module uses, read from its classes' imports, annotations and supertypes against three fixed
  * signal tables, returned as a sorted list without duplicates. */
module TechnologyScanner {
  import opened Wrappers
  import opened Metamodel
  import opened EnricherBase
  import opened Seqs
  import opened Sorting
  import SpringData

  /** Import prefix to technology. */
  const ImportSignals: map<string, string> := map[
    "org.springframework.web.bind.annotation" := "spring-web",
    "org.springframework.jms" := "spring-jms",
    "org.springframework.scheduling.annotation" := "spring-scheduled",
    "org.springframework.cloud.openfeign" := "feign",
    "org.springframework.data" := "spring-data",
    "org.springframework.web.client.RestTemplate" := "rest-clients",
    "org.springframework.web.reactive.function.client" := "rest-clients"]

  /** Annotation full name to technology. */
  const AnnotationSignals: map<string, string> := map[
    "org.springframework.web.bind.annotation.RestController" := "spring-web",
    "org.springframework.web.bind.annotation.Controller" := "spring-web",
    "org.springframework.jms.annotation.JmsListener" := "spring-jms",
    "org.springframework.scheduling.annotation.Scheduled" := "spring-scheduled",
    "org.springframework.cloud.openfeign.FeignClient" := "feign"]

  /** Supertype simple name to technology. */
  const SupertypeSignals: map<string, string> := map[
    "JpaRepository" := "spring-data", "CrudRepository" := "spring-data", "PagingAndSortingRepository" := "spring-data",
    "MongoRepository" := "spring-data", "ReactiveMongoRepository" := "spring-data",
    "ReactiveCrudRepository" := "spring-data", "ElasticsearchRepository" := "spring-data"]

  /** The supertype table is the Spring Data enricher's repository table without
    * `RedisRepository`: a Redis repository is only detected through its imports. */
  lemma SupertypeTableVersusRepositories()
    ensures forall n :: n in SupertypeSignals ==> n in SpringData.RepoKinds
    ensures "RedisRepository" in SpringData.RepoKinds && "RedisRepository" !in SupertypeSignals
  {
  }

  // ---------------------------------------------------------------------------------------
  // Per-signal tags
  // ---------------------------------------------------------------------------------------

  /** The technologies of an explicit import: those of every prefix it starts with. */
  function ImportTags(imp: string): set<string> {
    set p | p in ImportSignals && p <= imp :: ImportSignals[p]
  }

  /** The technologies of a star import `s`: those of every prefix that starts with `s + "."`
    * or that `s` starts with. */
  function StarTags(star: string): set<string> {
    set p | p in ImportSignals && (star + "." <= p || p <= star) :: ImportSignals[p]
  }

  /** The technology of one annotation: its exact full name in the table, or none. */
  function AnnotationTag(a: Annotation): set<string> {
    if a.name in AnnotationSignals then {AnnotationSignals[a.name]} else {}
  }

  /** The technologies of one stored annotation list; an empty or undecodable one gives none. */
  function StoredAnnotationTags(j: StoredJson<Annotation>): set<string> {
    UnionMap(ParseJson(j), AnnotationTag)
  }

  /** The technology of one supertype: its exact simple name in the table, or none. */
  function SupertypeTag(name: string): set<string> {
    if name in SupertypeSignals then {SupertypeSignals[name]} else {}
  }

  /** A star import covers both a package above a signal prefix and a package below it. */
  lemma StarTagsExamples()
    ensures "spring-jms" in StarTags("org.springframework")
    ensures "spring-data" in StarTags("org.springframework.data.jpa.repository")
    ensures "feign" in StarTags("org.springframework.cloud")
  {
    var s := "org.springframework";
    var p := "org.springframework.jms";
    assert s + "." == p[..|s| + 1];
    assert p in ImportSignals && s + "." <= p;
    var d := "org.springframework.data";
    var q := "org.springframework.data.jpa.repository";
    assert q[..|d|] == d;
    assert d in ImportSignals && d <= q;
    var c := "org.springframework.cloud";
    var f := "org.springframework.cloud.openfeign";
    assert f[..|c| + 1] == c + ".";
    assert f in ImportSignals && c + "." <= f;
  }

  // ---------------------------------------------------------------------------------------
  // The three scans
  // ---------------------------------------------------------------------------------------

  /** A class row of the import scan (null lists read as empty). */
  datatype ImportRow = ImportRow(imports: seq<string>, starImports: seq<string>)

  /** A class row of the annotation scan: its own annotations and those of each method. */
  datatype AnnotationRow = AnnotationRow(classAnnotations: StoredJson<Annotation>, methodAnnotations: seq<StoredJson<Annotation>>)

  function ImportRowTags(r: ImportRow): set<string> {
    UnionMap(r.imports, ImportTags) + UnionMap(r.starImports, StarTags)
  }

  function AnnotationRowTags(r: AnnotationRow): set<string> {
    UnionMap([r.classAnnotations] + r.methodAnnotations, StoredAnnotationTags)
  }

  function SupertypeRowTags(j: StoredJson<string>): set<string> {
    UnionMap(ParseJson(j), SupertypeTag)
  }

  /** `_scan_imports`: every row's explicit and star imports against the prefix table. */
  method ScanImports(rows: seq<ImportRow>) returns (detected: set<string>)
    ensures detected == UnionMap(rows, ImportRowTags)
  {
    detected := {};
    for i := 0 to |rows|
      invariant detected == UnionMap(rows[..i], ImportRowTags)
    {
      assert rows[..i + 1][..i] == rows[..i];
      detected := AddAll(detected, rows[i].imports, ImportTags);
      detected := AddAll(detected, rows[i].starImports, StarTags);
    }
    assert rows[..|rows|] == rows;
  }

  /** `_scan_annotations`: every row's class and method annotation lists against the table. */
  method ScanAnnotations(rows: seq<AnnotationRow>) returns (detected: set<string>)
    ensures detected == UnionMap(rows, AnnotationRowTags)
  {
    detected := {};
    for i := 0 to |rows|
      invariant detected == UnionMap(rows[..i], AnnotationRowTags)
    {
      assert rows[..i + 1][..i] == rows[..i];
      detected := AddAll(detected, [rows[i].classAnnotations] + rows[i].methodAnnotations, StoredAnnotationTags);
    }
    assert rows[..|rows|] == rows;
  }

  /** `_scan_supertypes`: every row's supertype names against the table. */
  method ScanSupertypes(rows: seq<StoredJson<string>>) returns (detected: set<string>)
    ensures detected == UnionMap(rows, SupertypeRowTags)
  {
    detected := {};
    for i := 0 to |rows|
      invariant detected == UnionMap(rows[..i], SupertypeRowTags)
    {
      assert rows[..i + 1][..i] == rows[..i];
      detected := AddAll(detected, ParseJson(rows[i]), SupertypeTag);
    }
    assert rows[..|rows|] == rows;
  }

  // ---------------------------------------------------------------------------------------
  // What the scans mean
  // ---------------------------------------------------------------------------------------

  /** The technologies of one row's imports: those of a prefix that an explicit import starts
    * with, or that a star import is a package above or below. */
  lemma ImportRowMeaning(r: ImportRow, t: string)
    ensures t in ImportRowTags(r) <==>
              exists p :: p in ImportSignals && ImportSignals[p] == t &&
                ((exists imp :: imp in r.imports && p <= imp) || (exists s :: s in r.starImports && (s + "." <= p || p <= s)))
  {
    UnionMapMembers(r.imports, ImportTags);
    UnionMapMembers(r.starImports, StarTags);
    if t in UnionMap(r.imports, ImportTags) {
      var k :| 0 <= k < |r.imports| && t in ImportTags(r.imports[k]);
      assert r.imports[k] in r.imports;
    } else if t in UnionMap(r.starImports, StarTags) {
      var k :| 0 <= k < |r.starImports| && t in StarTags(r.starImports[k]);
      assert r.starImports[k] in r.starImports;
    }
    if exists p, imp :: p in ImportSignals && ImportSignals[p] == t && imp in r.imports && p <= imp {
      var p, imp :| p in ImportSignals && ImportSignals[p] == t && imp in r.imports && p <= imp;
      assert t in ImportTags(imp);
    }
    if exists p, s :: p in ImportSignals && ImportSignals[p] == t && s in r.starImports && (s + "." <= p || p <= s) {
      var p, s :| p in ImportSignals && ImportSignals[p] == t && s in r.starImports && (s + "." <= p || p <= s);
      assert t in StarTags(s);
    }
  }

  /** A technology comes from the imports exactly when it comes from one row's imports. */
  lemma ImportScanMeaning(rows: seq<ImportRow>, t: string)
    ensures t in UnionMap(rows, ImportRowTags) <==> exists i :: 0 <= i < |rows| && t in ImportRowTags(rows[i])
  {
    UnionMapMembers(rows, ImportRowTags);
  }

  /** The technologies of one row's annotations: those whose table entry is the exact full name
    * of a class or method annotation. */
  lemma AnnotationRowMeaning(r: AnnotationRow, t: string)
    ensures t in AnnotationRowTags(r) <==>
              exists j, a :: j in [r.classAnnotations] + r.methodAnnotations && a in ParseJson(j)
                             && a.name in AnnotationSignals && AnnotationSignals[a.name] == t
  {
    var js := [r.classAnnotations] + r.methodAnnotations;
    UnionMapMembers(js, StoredAnnotationTags);
    forall j | j in js
      ensures t in StoredAnnotationTags(j) <==> exists a :: a in ParseJson(j) && t in AnnotationTag(a)
    {
      UnionMapMembers(ParseJson(j), AnnotationTag);
      if t in StoredAnnotationTags(j) {
        var m :| 0 <= m < |ParseJson(j)| && t in AnnotationTag(ParseJson(j)[m]);
        assert ParseJson(j)[m] in ParseJson(j);
      }
    }
    if t in AnnotationRowTags(r) {
      var k :| 0 <= k < |js| && t in StoredAnnotationTags(js[k]);
      assert js[k] in js;
    }
  }

  /** The technologies of one row's supertypes: those whose table entry is the exact simple name
    * of a supertype. */
  lemma SupertypeRowMeaning(j: StoredJson<string>, t: string)
    ensures t in SupertypeRowTags(j) <==> exists n :: n in ParseJson(j) && n in SupertypeSignals && SupertypeSignals[n] == t
  {
    UnionMapMembers(ParseJson(j), SupertypeTag);
    if t in SupertypeRowTags(j) {
      var m :| 0 <= m < |ParseJson(j)| && t in SupertypeTag(ParseJson(j)[m]);
      assert ParseJson(j)[m] in ParseJson(j);
    }
  }

  /** `detect`: the union of the three scans as an ascending list without duplicates (the list
    * the module node stores). */
  method Detect(importRows: seq<ImportRow>, annotationRows: seq<AnnotationRow>, supertypeRows: seq<StoredJson<string>>)
    returns (result: seq<string>)
    ensures Ascending(result)
    ensures forall t :: t in result <==>
              t in UnionMap(importRows, ImportRowTags) || t in UnionMap(annotationRows, AnnotationRowTags)
              || t in UnionMap(supertypeRows, SupertypeRowTags)
  {
    var fromImports := ScanImports(importRows);
    var fromAnnotations := ScanAnnotations(annotationRows);
    var fromSupertypes := ScanSupertypes(supertypeRows);
    result := SortSet(fromImports + fromAnnotations + fromSupertypes);
  }

  /** The technology keys of the three tables. */
  const TechKeys: set<string> := {"spring-web", "spring-jms", "spring-scheduled", "feign", "spring-data", "rest-clients"}

  /** Every technology detected is one of the tables' technology keys. */
  lemma DetectedKeysKnown(importRows: seq<ImportRow>, annotationRows: seq<AnnotationRow>, supertypeRows: seq<StoredJson<string>>)
    ensures UnionMap(importRows, ImportRowTags) <= TechKeys
    ensures UnionMap(annotationRows, AnnotationRowTags) <= TechKeys
    ensures UnionMap(supertypeRows, SupertypeRowTags) <= TechKeys
  {
    forall i | 0 <= i < |importRows|
      ensures ImportRowTags(importRows[i]) <= TechKeys
    {
      UnionMapWithin(importRows[i].imports, ImportTags, TechKeys);
      UnionMapWithin(importRows[i].starImports, StarTags, TechKeys);
    }
    UnionMapWithin(importRows, ImportRowTags, TechKeys);
    forall i | 0 <= i < |annotationRows|
      ensures AnnotationRowTags(annotationRows[i]) <= TechKeys
    {
      var js := [annotationRows[i].classAnnotations] + annotationRows[i].methodAnnotations;
      forall k | 0 <= k < |js|
        ensures StoredAnnotationTags(js[k]) <= TechKeys
      {
        UnionMapWithin(ParseJson(js[k]), AnnotationTag, TechKeys);
      }
      UnionMapWithin(js, StoredAnnotationTags, TechKeys);
    }
    UnionMapWithin(annotationRows, AnnotationRowTags, TechKeys);
    forall i | 0 <= i < |supertypeRows|
      ensures SupertypeRowTags(supertypeRows[i]) <= TechKeys
    {
      UnionMapWithin(ParseJson(supertypeRows[i]), SupertypeTag, TechKeys);
    }
    UnionMapWithin(supertypeRows, SupertypeRowTags, TechKeys);
  }
}
