/** The pure and loop-level parts of the Java extractor that run after the syntax tree exists:
  * import classification, the import map, annotation name resolution, nested-type full names,
  * visibility and generic stripping (backend/app/analyzers/java_maven.py). */
module JavaExtract {
  import opened Wrappers
  import opened Strs
  import opened Metamodel

  // ---------------------------------------------------------------------------------------
  // Import declarations (Java Language Specification, section 7.5)
  // ---------------------------------------------------------------------------------------

  /** What one `import` declaration contributes. */
  datatype ImportKind =
    | SingleType(fqn: string)                     // import a.b.C;
    | OnDemand(pkg: string)                       // import a.b.*;  or  import static a.B.*;
    | StaticMember(member: string, owner: string) // import static a.B.m;
    | Unusable                                    // import static m;  (no dot after the first character)

  /** The declaration text with `import `, the `;` and surrounding whitespace removed. */
  function ImportBody(decl: string): string {
    Strip(RemoveSuffix(RemovePrefix(Strip(decl), "import "), ";"))
  }

  /** How `_extract_imports` classifies one declaration. */
  function ClassifyImport(decl: string): ImportKind {
    ClassifyBody(ImportBody(decl))
  }

  /** Classification of the declaration body: an on-demand form first (static or not), then a
    * static member import, else a single-type import. */
  function ClassifyBody(t: string): ImportKind {
    var isStatic := "static " <= t;
    var u := if isStatic then Strip(t[7..]) else t;
    if EndsWith(u, ".*") then OnDemand(u[..|u| - 2])
    else if isStatic then ClassifyStatic(u)
    else SingleType(u)
  }

  /** A static import names a member after the last dot; one whose last dot is missing or
    * first is not usable. */
  function ClassifyStatic(u: string): ImportKind {
    match RFind(u, '.')
    case Some(k) => if k > 0 then StaticMember(u[k + 1..], u[..k]) else Unusable
    case None => Unusable
  }

  /** What a declaration appends to the plain import list: a static member import also
    * imports its owning class. */
  function ImportPart(k: ImportKind): seq<string> {
    match k
    case SingleType(f) => [f]
    case StaticMember(_, o) => [o]
    case _ => []
  }

  function StarPart(k: ImportKind): seq<string> {
    if k.OnDemand? then [k.pkg] else []
  }

  /** The classification of every declaration, in order. */
  function Kinds(decls: seq<string>): (ks: seq<ImportKind>)
    ensures |ks| == |decls|
  {
    seq(|decls|, i requires 0 <= i < |decls| => ClassifyImport(decls[i]))
  }

  /** The plain imports of a declaration list, in declaration order. */
  function ImportsOf(ks: seq<ImportKind>): seq<string> {
    if ks == [] then [] else ImportsOf(ks[..|ks| - 1]) + ImportPart(ks[|ks| - 1])
  }

  /** The on-demand imports of a declaration list, in declaration order. */
  function StarsOf(ks: seq<ImportKind>): seq<string> {
    if ks == [] then [] else StarsOf(ks[..|ks| - 1]) + StarPart(ks[|ks| - 1])
  }

  /** The static member imports (member name to owning class); a later one overwrites. */
  function StaticsOf(ks: seq<ImportKind>): map<string, string> {
    if ks == [] then map[]
    else
      var m := StaticsOf(ks[..|ks| - 1]);
      match ks[|ks| - 1]
      case StaticMember(mem, o) => m[mem := o]
      case _ => m
  }

  /** `_extract_imports`: one pass over the declarations filling three collections. */
  method ExtractImports(decls: seq<string>) returns (imports: seq<string>, stars: seq<string>, statics: map<string, string>)
    ensures imports == ImportsOf(Kinds(decls)) && stars == StarsOf(Kinds(decls)) && statics == StaticsOf(Kinds(decls))
  {
    ghost var ks := Kinds(decls);
    imports, stars, statics := [], [], map[];
    for i := 0 to |decls|
      invariant imports == ImportsOf(ks[..i])
      invariant stars == StarsOf(ks[..i])
      invariant statics == StaticsOf(ks[..i])
    {
      var k := ClassifyImport(decls[i]);
      assert ks[i] == k;
      KindsSnoc(ks, i);
      match k {
        case OnDemand(p) => stars := stars + [p];
        case StaticMember(m, o) =>
          statics := statics[m := o];
          imports := imports + [o];
        case SingleType(f) => imports := imports + [f];
        case Unusable =>
      }
    }
    assert ks[..|decls|] == ks;
  }

  /** One more declaration adds its part to each of the three collections. */
  lemma KindsSnoc(ks: seq<ImportKind>, i: nat)
    requires i < |ks|
    ensures ImportsOf(ks[..i + 1]) == ImportsOf(ks[..i]) + ImportPart(ks[i])
    ensures StarsOf(ks[..i + 1]) == StarsOf(ks[..i]) + StarPart(ks[i])
    ensures StaticsOf(ks[..i + 1]) == match ks[i]
                                        case StaticMember(mem, o) => StaticsOf(ks[..i])[mem := o]
                                        case _ => StaticsOf(ks[..i])
  {
    assert ks[..i + 1][..i] == ks[..i] && ks[..i + 1][i] == ks[i];
  }

  /** The body of `import <t>;` is `t` when `t` has no surrounding whitespace. */
  lemma ImportBodyOf(t: string)
    requires t != [] && !IsSpace(t[0]) && !IsSpace(t[|t| - 1])
    ensures ImportBody("import " + t + ";") == t
  {
    var decl := "import " + t + ";";
    StripNoop(decl);
    PrefixAppend("import ", t + ";");
    SuffixAppend(t, ";");
    StripNoop(t);
  }

  /** `import static a.B.m;` is a static member import of `m` owned by `a.B`. */
  lemma StaticImportShape(owner: string, member: string)
    requires owner != [] && !IsSpace(owner[0])
    requires member != [] && !IsSpace(member[|member| - 1]) && '.' !in member && member != "*"
    ensures ClassifyImport("import static " + owner + "." + member + ";")
            == StaticMember(member, owner)
  {
    var u := owner + "." + member;
    assert "import static " + owner + "." + member + ";" == "import " + ("static " + u) + ";";
    ImportBodyOf("static " + u);
    NotOnDemand(owner, member);
    StaticBodyOf(u);
    StaticSplit(owner, member);
  }

  lemma NotOnDemand(owner: string, member: string)
    requires member != [] && '.' !in member && member != "*"
    ensures !EndsWith(owner + "." + member, ".*")
  {
    var u := owner + "." + member;
    assert u[|u| - 1] == member[|member| - 1];
    if |member| >= 2 {
      assert u[|u| - 2] == member[|member| - 2];
    } else {
      assert member == [member[0]];
    }
  }

  lemma StaticBodyOf(u: string)
    requires u != [] && !IsSpace(u[0]) && !IsSpace(u[|u| - 1]) && !EndsWith(u, ".*")
    ensures ClassifyBody("static " + u) == ClassifyStatic(u)
  {
    PrefixAppend("static ", u);
    StripNoop(u);
  }

  lemma StaticSplit(owner: string, member: string)
    requires owner != [] && '.' !in member
    ensures ClassifyStatic(owner + "." + member) == StaticMember(member, owner)
  {
    var u := owner + "." + member;
    RFindSplit(owner, '.', member);
    assert u[..|owner|] == owner && u[|owner| + 1..] == member;
  }

  /** `import a.b.*;` and `import static a.b.*;` only add `a.b` to the on-demand imports. */
  lemma OnDemandShape(pkg: string, isStatic: bool)
    requires pkg != [] && !IsSpace(pkg[0]) && ' ' !in pkg
    ensures var decl := "import " + (if isStatic then "static " else "") + pkg + ".*;";
            ClassifyImport(decl) == OnDemand(pkg)
            && ImportPart(ClassifyImport(decl)) == [] && StarPart(ClassifyImport(decl)) == [pkg]
  {
    var u := pkg + ".*";
    var t := (if isStatic then "static " else "") + u;
    assert "import " + (if isStatic then "static " else "") + pkg + ".*;" == "import " + t + ";";
    ImportBodyOf(t);
    OnDemandBody(pkg, isStatic);
  }

  lemma OnDemandBody(pkg: string, isStatic: bool)
    requires pkg != [] && !IsSpace(pkg[0]) && ' ' !in pkg
    ensures ClassifyBody((if isStatic then "static " else "") + (pkg + ".*")) == OnDemand(pkg)
  {
    var u := pkg + ".*";
    SuffixAppend(pkg, ".*");
    StripNoop(u);
    if isStatic {
      PrefixAppend("static ", u);
    } else {
      assert !("static " <= u) by {
        if |u| >= 7 {
          if |pkg| > 6 { assert u[6] == pkg[6]; } else { assert u[6] == ".*"[6 - |pkg|]; }
        }
      }
    }
  }

  /** The static-import map holds exactly the members named by static member imports, each
    * bound to the owner given by the last such import. */
  lemma {:induction false} StaticsOfLastWins(ks: seq<ImportKind>, m: string)
    ensures m in StaticsOf(ks) <==> exists i :: 0 <= i < |ks| && ks[i].StaticMember? && ks[i].member == m
    ensures m in StaticsOf(ks) ==>
            exists i :: 0 <= i < |ks| && ks[i] == StaticMember(m, StaticsOf(ks)[m])
                        && forall j :: i < j < |ks| ==> !(ks[j].StaticMember? && ks[j].member == m)
  {
    if ks != [] {
      var init := ks[..|ks| - 1];
      StaticsOfLastWins(init, m);
      assert forall i :: 0 <= i < |init| ==> init[i] == ks[i];
      var k := ks[|ks| - 1];
      if !(k.StaticMember? && k.member == m) && m in StaticsOf(ks) {
        var i :| 0 <= i < |init| && init[i] == StaticMember(m, StaticsOf(init)[m])
                 && forall j :: i < j < |init| ==> !(init[j].StaticMember? && init[j].member == m);
        assert ks[i] == StaticMember(m, StaticsOf(ks)[m]);
      }
    }
  }

  // ---------------------------------------------------------------------------------------
  // Import map and annotation names
  // ---------------------------------------------------------------------------------------

  /** The import map after the imports so far: simple name (text after the last dot) to
    * import; a later import with the same simple name overwrites an earlier one. */
  function ImportMapOf(imports: seq<string>): map<string, string> {
    if imports == [] then map[]
    else
      var last := imports[|imports| - 1];
      ImportMapOf(imports[..|imports| - 1])[LastSegment(last, '.') := last]
  }

  /** `_build_import_map` */
  method BuildImportMap(imports: seq<string>) returns (m: map<string, string>)
    ensures m == ImportMapOf(imports)
  {
    m := map[];
    for i := 0 to |imports|
      invariant m == ImportMapOf(imports[..i])
    {
      assert imports[..i + 1][..i] == imports[..i];
      m := m[LastSegment(imports[i], '.') := imports[i]];
    }
    assert imports[..|imports|] == imports;
  }

  /** The index of the last import whose simple name is `k`. */
  function LastNamed(imports: seq<string>, k: string): (r: Option<nat>)
    ensures r.Some? ==> r.value < |imports| && LastSegment(imports[r.value], '.') == k
    ensures r.Some? ==> forall j :: r.value < j < |imports| ==> LastSegment(imports[j], '.') != k
    ensures r.None? ==> forall j :: 0 <= j < |imports| ==> LastSegment(imports[j], '.') != k
  {
    if imports == [] then None
    else if LastSegment(imports[|imports| - 1], '.') == k then Some(|imports| - 1)
    else LastNamed(imports[..|imports| - 1], k)
  }

  /** The import map has an entry for exactly the simple names of the imports, and that entry
    * is the last import with that simple name. */
  lemma {:induction false} ImportMapLastWins(imports: seq<string>, k: string)
    ensures k in ImportMapOf(imports) <==> LastNamed(imports, k).Some?
    ensures k in ImportMapOf(imports) ==> ImportMapOf(imports)[k] == imports[LastNamed(imports, k).value]
  {
    if imports != [] {
      var init := imports[..|imports| - 1];
      ImportMapLastWins(init, k);
      if LastSegment(imports[|imports| - 1], '.') != k && k in ImportMapOf(init) {
        assert imports[LastNamed(init, k).value] == init[LastNamed(init, k).value];
      }
    }
  }

  /** The name `_resolve_annotation_fqns` gives one annotation: an explicit import with that
    * simple name; else the first on-demand package, unconditionally; else the same package;
    * else the bare name. An import map entry that is empty counts as missing. */
  function ResolveFqn(name: string, importMap: map<string, string>, stars: seq<string>, pkg: string): string {
    if name in importMap && importMap[name] != "" then importMap[name]
    else if stars != [] then stars[0] + "." + name
    else if pkg != "" then pkg + "." + name
    else name
  }

  /** `_resolve_annotation_fqns`: the same annotations, in order, with resolved names and the
    * same arguments. */
  method ResolveAnnotationFqns(anns: seq<Annotation>, importMap: map<string, string>, stars: seq<string>, pkg: string)
    returns (resolved: seq<Annotation>)
    ensures |resolved| == |anns|
    ensures forall i :: 0 <= i < |anns| ==>
              resolved[i].arguments == anns[i].arguments
              && resolved[i].name == ResolveFqn(anns[i].name, importMap, stars, pkg)
  {
    resolved := [];
    for i := 0 to |anns|
      invariant |resolved| == i
      invariant forall j :: 0 <= j < i ==>
                  resolved[j] == Annotation(ResolveFqn(anns[j].name, importMap, stars, pkg), anns[j].arguments)
    {
      var fqn := "";
      if anns[i].name in importMap {
        fqn := importMap[anns[i].name];
      }
      if fqn == "" && |stars| > 0 {
        fqn := stars[0] + "." + anns[i].name;
      }
      if fqn == "" && pkg != "" {
        fqn := pkg + "." + anns[i].name;
      }
      resolved := resolved + [Annotation(if fqn != "" then fqn else anns[i].name, anns[i].arguments)];
    }
  }

  /** Resolution only qualifies a name, never renames it: with the import map built from the
    * class's imports, the text after the last dot of the result is the annotation's simple name. */
  lemma ResolveKeepsSimpleName(imports: seq<string>, stars: seq<string>, pkg: string, name: string)
    requires '.' !in name
    ensures LastSegment(ResolveFqn(name, ImportMapOf(imports), stars, pkg), '.') == name
  {
    var m := ImportMapOf(imports);
    if name in m && m[name] != "" {
      ImportMapLastWins(imports, name);
    } else if stars != [] {
      LastSegmentSplit(stars[0], '.', name);
    } else if pkg != "" {
      LastSegmentSplit(pkg, '.', name);
    } else {
      LastSegmentNone(name, '.');
    }
  }

  // ---------------------------------------------------------------------------------------
  // Type declarations: full names, visibility, generics
  // ---------------------------------------------------------------------------------------

  /** A type declaration as far as naming goes: its simple name (absent when the parser gives
    * none) and the type declarations in its body. */
  datatype TypeNode = TypeNode(name: Option<string>, inner: seq<TypeNode>)

  /** The full name of a type (Java Language Specification, section 6.7): `parent.simple` when
    * nested, `package.simple` at top level, `simple` in the unnamed package. */
  function QualifiedName(pkg: string, parent: Option<string>, simple: string): string {
    if parent.Some? && parent.value != "" then parent.value + "." + simple
    else if pkg != "" then pkg + "." + simple
    else simple
  }

  /** The (simple name, full name) pairs `_extract_types_from_nodes` records, in its order: each
    * named type before its nested types; an unnamed declaration is skipped with its body. */
  function FlattenTypes(nodes: seq<TypeNode>, pkg: string, parent: Option<string>): seq<(string, string)>
    decreases nodes
  {
    if nodes == [] then []
    else
      var rest := FlattenTypes(nodes[1..], pkg, parent);
      match nodes[0].name
      case None => rest
      case Some(simple) =>
        var full := QualifiedName(pkg, parent, simple);
        [(simple, full)] + FlattenTypes(nodes[0].inner, pkg, Some(full)) + rest
  }

  /** In a named package every type's full name starts with `package.` and ends with its own
    * simple name, at any nesting depth. */
  lemma {:induction false} FlattenTypesQualified(nodes: seq<TypeNode>, pkg: string, parent: Option<string>)
    requires pkg != ""
    requires parent.Some? ==> parent.value == "" || pkg + "." <= parent.value
    ensures forall e :: e in FlattenTypes(nodes, pkg, parent) ==> pkg + "." <= e.1 && EndsWith(e.1, e.0)
    decreases nodes
  {
    if nodes != [] {
      FlattenTypesQualified(nodes[1..], pkg, parent);
      match nodes[0].name {
        case None =>
        case Some(simple) =>
          var full := QualifiedName(pkg, parent, simple);
          assert pkg + "." <= full;
          FlattenTypesQualified(nodes[0].inner, pkg, Some(full));
      }
    }
  }

  /** The rank of an access modifier; 0 for anything else. */
  function AccessRank(m: string): nat {
    if m == "public" then 3 else if m == "protected" then 2 else if m == "private" then 1 else 0
  }

  /** `_visibility_from_modifiers`: the strongest access modifier present, public > protected >
    * private, or package-private when there is none. */
  function Visibility(mods: set<string>): (r: string)
    ensures r == "package-private" <==> forall m :: m in mods ==> AccessRank(m) == 0
    ensures r != "package-private" ==> r in mods
    ensures forall m :: m in mods ==> AccessRank(m) <= AccessRank(r)
  {
    if "public" in mods then "public"
    else if "protected" in mods then "protected"
    else if "private" in mods then "private"
    else "package-private"
  }

  /** Supertype and field type text: cut at the first `<`, then trimmed. */
  function StripGenerics(t: string): (r: string)
    ensures '<' !in r
    ensures '<' !in t ==> r == Strip(t)
    ensures exists k :: 0 <= k <= |t| && '<' !in t[..k] && (k == |t| || t[k] == '<') && r == Strip(t[..k])
  {
    var k := match Find(t, '<') case Some(i) => i case None => |t|;
    var r := Strip(t[..k]);
    assert t[..k] == t ==> r == Strip(t);
    StripIsSlice(t[..k]);
    r
  }

  /** Stripping generics twice changes nothing more. */
  lemma StripGenericsIdempotent(t: string)
    ensures StripGenerics(StripGenerics(t)) == StripGenerics(t)
  {
    var r := StripGenerics(t);
    var k :| 0 <= k <= |t| && '<' !in t[..k] && (k == |t| || t[k] == '<') && r == Strip(t[..k]);
    StripIdempotent(t[..k]);
  }
}
