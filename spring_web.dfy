/** The Spring Web enricher (backend/app/analyzers/enrichers/spring_web.py): which annotation
  * gives a controller method its HTTP endpoint, how the endpoint path is built from the class
  * and method mappings, and the loop that writes REST interfaces and endpoints. Reading the
  * controllers and their resolved supertypes from the graph is outside the model: they arrive
  * as input records, and each graph write is an element of an output sequence that fails when
  * its key is in a given set. */
module SpringWeb {
  import opened Wrappers
  import opened Strs
  import opened Metamodel
  import opened EnricherBase
  import opened Seqs
  import opened GraphRecords

  // ---------------------------------------------------------------------------------------
  // Tables
  // ---------------------------------------------------------------------------------------

  const GetMappingFqn := "org.springframework.web.bind.annotation.GetMapping"
  const PostMappingFqn := "org.springframework.web.bind.annotation.PostMapping"
  const PutMappingFqn := "org.springframework.web.bind.annotation.PutMapping"
  const DeleteMappingFqn := "org.springframework.web.bind.annotation.DeleteMapping"
  const PatchMappingFqn := "org.springframework.web.bind.annotation.PatchMapping"
  const RequestMappingFqn := "org.springframework.web.bind.annotation.RequestMapping"

  /** The verb-specific mapping annotations, in the order they are tried, and their verbs
    * (`VerbNames[k]` is the verb of `VerbMappings[k]`). */
  const VerbMappings: seq<string> := [GetMappingFqn, PostMappingFqn, PutMappingFqn, DeleteMappingFqn, PatchMappingFqn]
  const VerbNames: seq<string> := ["GET", "POST", "PUT", "DELETE", "PATCH"]

  /** Every mapping annotation: the verb-specific ones and the generic request mapping. */
  const AllMappingFqns: set<string> :=
    {GetMappingFqn, PostMappingFqn, PutMappingFqn, DeleteMappingFqn, PatchMappingFqn, RequestMappingFqn}

  const ControllerFqns: set<string> :=
    {"org.springframework.web.bind.annotation.RestController", "org.springframework.web.bind.annotation.Controller"}

  /** The verbs an endpoint can carry. */
  const HttpVerbs: set<string> := {"GET", "POST", "PUT", "DELETE", "PATCH", "HEAD", "OPTIONS"}

  /** The `RequestMethod` values a generic mapping's `method` argument is looked up in. */
  function RequestMethod(v: string): (r: Option<string>)
    ensures r.Some? ==> r.value in HttpVerbs
  {
    match v
    case "RequestMethod.GET" => Some("GET")
    case "RequestMethod.POST" => Some("POST")
    case "RequestMethod.PUT" => Some("PUT")
    case "RequestMethod.DELETE" => Some("DELETE")
    case "RequestMethod.PATCH" => Some("PATCH")
    case "RequestMethod.HEAD" => Some("HEAD")
    case "RequestMethod.OPTIONS" => Some("OPTIONS")
    case "GET" => Some("GET")
    case "POST" => Some("POST")
    case "PUT" => Some("PUT")
    case "DELETE" => Some("DELETE")
    case "PATCH" => Some("PATCH")
    case _ => None
  }

  // ---------------------------------------------------------------------------------------
  // Paths
  // ---------------------------------------------------------------------------------------

  /** `_get_path`: the mapping's `value` argument, else its `path` argument (an empty value
    * falls through), as text: a list gives its first element. No annotation, or no arguments,
    * gives "". */
  function GetPath(ann: Option<Annotation>): (r: string)
    ensures ann.None? || NoArgs(ann.value) ==> r == ""
    ensures ann.Some? && !NoArgs(ann.value) ==>
            var args := ArgsOf(ann.value);
            if "value" in args && Truthy(args["value"]) then r == FirstText(args["value"])
            else if "path" in args && Truthy(args["path"]) then r == FirstText(args["path"])
            else r == ""
  {
    if ann.None? || NoArgs(ann.value) then ""
    else
      match Or(Lookup(ArgsOf(ann.value), "value"), Lookup(ArgsOf(ann.value), "path"))
      case None => ""
      case Some(v) => FirstText(v)
  }

  /** `_join_paths`: the base with its trailing slashes removed and the method path with its
    * leading slashes removed, joined by one slash; "/" when both are empty. */
  function JoinPaths(base: string, methodPath: string): (r: string)
    ensures r != []
  {
    var b := RStripChar(base, '/');
    var m := LStripChar(methodPath, '/');
    if b == "" && m == "" then "/"
    else if m == "" then b
    else if b == "" then "/" + m
    else b + "/" + m
  }

  /** The four boundary cases of path joining. */
  lemma JoinPathsExamples()
    ensures JoinPaths("", "") == "/"
    ensures JoinPaths("/api", "") == "/api"
    ensures JoinPaths("", "/users") == "/users"
    ensures JoinPaths("/api/", "users") == "/api/users"
  {
    assert RStripChar("/api", '/') == "/api";
    assert LStripChar("/users", '/') == LStripChar("users", '/') == "users";
    assert RStripChar("/api/", '/') == RStripChar("/api", '/');
    assert LStripChar("users", '/') == "users";
  }

  /** When both parts have text left after trimming, the result is the two parts around exactly
    * one slash: the base part does not end with one and the method part does not start with
    * one. */
  lemma JoinPathsSeam(base: string, methodPath: string)
    requires RStripChar(base, '/') != "" && LStripChar(methodPath, '/') != ""
    ensures var b := RStripChar(base, '/');
            var m := LStripChar(methodPath, '/');
            JoinPaths(base, methodPath) == b + "/" + m && b[|b| - 1] != '/' && m[0] != '/'
  {
    RStripCharFacts(base, '/');
    LStripCharFacts(methodPath, '/');
  }

  /** Extra slashes at the end of the base or the start of the method path change nothing. */
  lemma JoinPathsIgnoresExtraSlashes(base: string, methodPath: string)
    ensures JoinPaths(base + "/", methodPath) == JoinPaths(base, methodPath)
    ensures JoinPaths(base, "/" + methodPath) == JoinPaths(base, methodPath)
  {
    assert (base + "/")[..|base + "/"| - 1] == base;
    assert ("/" + methodPath)[1..] == methodPath;
  }

  // ---------------------------------------------------------------------------------------
  // Endpoints
  // ---------------------------------------------------------------------------------------

  /** `_has_any_mapping` */
  predicate HasAnyMapping(anns: seq<Annotation>) {
    exists i :: 0 <= i < |anns| && anns[i].name in AllMappingFqns
  }

  /** `_resolve_http_method`: the verb named by a generic mapping's `method` argument (the first
    * element of a list); nothing when the argument is missing, empty or not a known value. */
  function ResolveHttpMethod(ann: Annotation): (r: Option<string>)
    ensures r.Some? ==> r.value in HttpVerbs
    ensures r.Some? ==> !NoArgs(ann) && "method" in ArgsOf(ann) && Truthy(ArgsOf(ann)["method"])
                        && r == RequestMethod(FirstText(ArgsOf(ann)["method"]))
  {
    if NoArgs(ann) then None
    else
      match Lookup(ArgsOf(ann), "method")
      case None => None
      case Some(v) => if Truthy(v) && FirstText(v) != "" then RequestMethod(FirstText(v)) else None
  }

  /** A REST endpoint as written: path, verb, and the media types when the mapping gives them. */
  datatype Endpoint = Endpoint(path: string, httpMethod: string, produces: Option<string>, consumes: Option<string>)

  /** A media-type argument as text: a list is joined with ", ". */
  function MediaText(v: ArgValue): string {
    match v
    case Str(s) => s
    case StrList(xs) => Join(", ", xs)
  }

  /** `_add_media_types`: `produces` and `consumes` are set from the mapping's arguments of those
    * names when present and non-empty; everything else is left as it was. */
  function AddMediaTypes(ann: Annotation, ep: Endpoint): (r: Endpoint)
    ensures r.path == ep.path && r.httpMethod == ep.httpMethod
    ensures r.produces == (if !NoArgs(ann) && "produces" in ArgsOf(ann) && Truthy(ArgsOf(ann)["produces"])
                           then Some(MediaText(ArgsOf(ann)["produces"])) else ep.produces)
    ensures r.consumes == (if !NoArgs(ann) && "consumes" in ArgsOf(ann) && Truthy(ArgsOf(ann)["consumes"])
                           then Some(MediaText(ArgsOf(ann)["consumes"])) else ep.consumes)
  {
    if NoArgs(ann) then ep
    else
      var args := ArgsOf(ann);
      var ep1 := if "produces" in args && Truthy(args["produces"]) then ep.(produces := Some(MediaText(args["produces"]))) else ep;
      if "consumes" in args && Truthy(args["consumes"]) then ep1.(consumes := Some(MediaText(args["consumes"]))) else ep1
  }

  /** The table index of the first verb-specific mapping present, trying from index `k` on. */
  function VerbIndex(anns: seq<Annotation>, k: nat): (r: Option<nat>)
    requires k <= |VerbMappings|
    ensures r.Some? ==> k <= r.value < |VerbMappings| && GetAnnotation(anns, {VerbMappings[r.value]}).Some?
    ensures r.Some? ==> forall i :: k <= i < r.value ==> GetAnnotation(anns, {VerbMappings[i]}).None?
    ensures r.None? ==> forall j :: k <= j < |VerbMappings| ==> GetAnnotation(anns, {VerbMappings[j]}).None?
    decreases |VerbMappings| - k
  {
    if k == |VerbMappings| then None
    else if GetAnnotation(anns, {VerbMappings[k]}).Some? then Some(k)
    else VerbIndex(anns, k + 1)
  }

  /** `_resolve_endpoint`: the first verb-specific mapping in table order, else the generic
    * request mapping with its own verb or GET; the path joins the base path and the mapping's
    * path, and the media types come from the mapping used. */
  function ResolveEndpoint(anns: seq<Annotation>, basePath: string): Option<Endpoint> {
    match VerbIndex(anns, 0)
    case Some(k) =>
      var a := GetAnnotation(anns, {VerbMappings[k]}).value;
      Some(AddMediaTypes(a, Endpoint(JoinPaths(basePath, GetPath(Some(a))), VerbNames[k], None, None)))
    case None =>
      match GetAnnotation(anns, {RequestMappingFqn})
      case Some(a) =>
        Some(AddMediaTypes(a, Endpoint(JoinPaths(basePath, GetPath(Some(a))), ResolveHttpMethod(a).GetOr("GET"), None, None)))
      case None => None
  }

  /** A method has an endpoint exactly when it carries some mapping annotation, and the
    * endpoint's verb is always one of the HTTP verbs and its path is never empty. */
  lemma EndpointIffMapping(anns: seq<Annotation>, basePath: string)
    ensures ResolveEndpoint(anns, basePath).Some? <==> HasAnyMapping(anns)
    ensures ResolveEndpoint(anns, basePath).Some? ==>
            ResolveEndpoint(anns, basePath).value.httpMethod in HttpVerbs && ResolveEndpoint(anns, basePath).value.path != ""
  {
  }

  /** The table search from `m` stops at `k` when the `k`-th verb mapping is present and none
    * from `m` up to it is. */
  lemma {:induction false} VerbIndexAt(anns: seq<Annotation>, m: nat, k: nat)
    requires m <= k < |VerbMappings|
    requires GetAnnotation(anns, {VerbMappings[k]}).Some?
    requires forall i :: 0 <= i < |anns| ==> anns[i].name !in VerbMappings[m..k]
    ensures VerbIndex(anns, m) == Some(k)
    decreases k - m
  {
    if m < k {
      assert VerbMappings[m] in VerbMappings[m..k];
      assert GetAnnotation(anns, {VerbMappings[m]}).None?;
      assert forall i :: 0 <= i < |anns| ==> anns[i].name !in VerbMappings[m + 1..k] by {
        assert forall x :: x in VerbMappings[m + 1..k] ==> x in VerbMappings[m..k];
      }
      VerbIndexAt(anns, m + 1, k);
    }
  }

  /** A name no annotation carries is not found. */
  lemma AbsentNotFound(anns: seq<Annotation>, n: string)
    requires forall i :: 0 <= i < |anns| ==> anns[i].name != n
    ensures GetAnnotation(anns, {n}).None?
  {
  }

  /** With no verb-specific mapping from the `m`-th on present, the table search from `m`
    * finds nothing. */
  lemma {:induction false} NoVerbIndex(anns: seq<Annotation>, m: nat)
    requires m <= |VerbMappings|
    requires forall i :: 0 <= i < |anns| ==> anns[i].name !in VerbMappings[m..]
    ensures VerbIndex(anns, m).None?
    decreases |VerbMappings| - m
  {
    if m < |VerbMappings| {
      assert VerbMappings[m] in VerbMappings[m..];
      AbsentNotFound(anns, VerbMappings[m]);
      assert forall i :: 0 <= i < |anns| ==> anns[i].name !in VerbMappings[m + 1..] by {
        assert forall x :: x in VerbMappings[m + 1..] ==> x in VerbMappings[m..];
      }
      NoVerbIndex(anns, m + 1);
    }
  }

  /** Verb-specific mappings take precedence in table order: with the `k`-th one present and
    * none before it, the endpoint has the `k`-th verb and that mapping's path. */
  lemma EndpointVerbPrecedence(anns: seq<Annotation>, basePath: string, k: nat)
    requires k < |VerbMappings|
    requires exists i :: 0 <= i < |anns| && anns[i].name == VerbMappings[k]
    requires forall i :: 0 <= i < |anns| ==> anns[i].name !in VerbMappings[..k]
    ensures ResolveEndpoint(anns, basePath).Some?
    ensures ResolveEndpoint(anns, basePath).value.httpMethod == VerbNames[k]
    ensures ResolveEndpoint(anns, basePath).value.path ==
            JoinPaths(basePath, GetPath(GetAnnotation(anns, {VerbMappings[k]})))
  {
    var i :| 0 <= i < |anns| && anns[i].name == VerbMappings[k];
    assert anns[i].name in {VerbMappings[k]};
    assert VerbMappings[0..k] == VerbMappings[..k];
    VerbIndexAt(anns, 0, k);
  }

  /** Without a verb-specific mapping, the generic mapping decides: its own verb when it names
    * a known one, GET otherwise. */
  lemma EndpointGenericDefaultsToGet(anns: seq<Annotation>, basePath: string)
    requires forall i :: 0 <= i < |anns| ==> anns[i].name !in VerbMappings
    requires GetAnnotation(anns, {RequestMappingFqn}).Some?
    ensures ResolveEndpoint(anns, basePath).Some?
    ensures ResolveEndpoint(anns, basePath).value.httpMethod ==
            ResolveHttpMethod(GetAnnotation(anns, {RequestMappingFqn}).value).GetOr("GET")
  {
    assert VerbMappings[0..] == VerbMappings;
    NoVerbIndex(anns, 0);
  }

  // ---------------------------------------------------------------------------------------
  // The enrichment loop
  // ---------------------------------------------------------------------------------------

  /** `_load_module_controllers` keeps the classes with a controller annotation. */
  predicate IsController(cls: ClassRecord) {
    GetAnnotation(cls.annotations, ControllerFqns).Some?
  }

  /** `_load_module_controllers`: the module's classes that carry a controller annotation,
    * decoded, in order. */
  function LoadControllers(rows: seq<StoredClass>): (r: seq<ClassRecord>)
    ensures |r| <= |rows|
    ensures forall c :: c in r <==> exists i :: 0 <= i < |rows| && c == DecodeClass(rows[i]) && IsController(c)
  {
    FilterMap(rows, DecodeClass, IsController)
  }

  /** The base-path mapping of a controller: its own request mapping, else the request mapping
    * of the first resolved supertype that has one. */
  function BaseMapping(cls: ClassRecord, ifaces: seq<ClassRecord>): Option<Annotation> {
    if GetAnnotation(cls.annotations, {RequestMappingFqn}).Some? then GetAnnotation(cls.annotations, {RequestMappingFqn})
    else if ifaces == [] then None
    else if GetAnnotation(ifaces[0].annotations, {RequestMappingFqn}).Some? then GetAnnotation(ifaces[0].annotations, {RequestMappingFqn})
    else BaseMapping(cls, ifaces[1..])
  }

  /** The class's own request mapping wins; without one, the first supertype with a request
    * mapping gives it; with none anywhere there is no base mapping. */
  lemma {:induction false} BaseMappingOrder(cls: ClassRecord, ifaces: seq<ClassRecord>)
    ensures GetAnnotation(cls.annotations, {RequestMappingFqn}).Some? ==>
            BaseMapping(cls, ifaces) == GetAnnotation(cls.annotations, {RequestMappingFqn})
    ensures GetAnnotation(cls.annotations, {RequestMappingFqn}).None? ==>
            (BaseMapping(cls, ifaces).None? <==>
             forall i :: 0 <= i < |ifaces| ==> GetAnnotation(ifaces[i].annotations, {RequestMappingFqn}).None?)
    ensures GetAnnotation(cls.annotations, {RequestMappingFqn}).None? && BaseMapping(cls, ifaces).Some? ==>
            exists i :: 0 <= i < |ifaces| && BaseMapping(cls, ifaces) == GetAnnotation(ifaces[i].annotations, {RequestMappingFqn})
                        && forall j :: 0 <= j < i ==> GetAnnotation(ifaces[j].annotations, {RequestMappingFqn}).None?
  {
    var own := GetAnnotation(cls.annotations, {RequestMappingFqn});
    if own.None? && ifaces != [] {
      var rest := ifaces[1..];
      BaseMappingOrder(cls, rest);
      assert forall j :: 0 <= j < |rest| ==> rest[j] == ifaces[j + 1];
      if GetAnnotation(ifaces[0].annotations, {RequestMappingFqn}).None? {
        assert BaseMapping(cls, ifaces) == BaseMapping(cls, rest);
        if BaseMapping(cls, rest).Some? {
          var i :| 0 <= i < |rest| && BaseMapping(cls, rest) == GetAnnotation(rest[i].annotations, {RequestMappingFqn})
                   && forall j :: 0 <= j < i ==> GetAnnotation(rest[j].annotations, {RequestMappingFqn}).None?;
          assert forall j :: 0 <= j < i + 1 ==> GetAnnotation(ifaces[j].annotations, {RequestMappingFqn}).None? by {
            forall j | 0 < j < i + 1
              ensures GetAnnotation(ifaces[j].annotations, {RequestMappingFqn}).None?
            {
              assert ifaces[j] == rest[j - 1];
            }
          }
          assert BaseMapping(cls, ifaces) == GetAnnotation(ifaces[i + 1].annotations, {RequestMappingFqn});
        } else {
          forall i | 0 <= i < |ifaces|
            ensures GetAnnotation(ifaces[i].annotations, {RequestMappingFqn}).None?
          {
            if i > 0 {
              assert ifaces[i] == rest[i - 1];
            }
          }
        }
      } else {
        assert BaseMapping(cls, ifaces) == GetAnnotation(ifaces[0].annotations, {RequestMappingFqn});
      }
    }
  }

  /** The class-mapping lookup of `enrich_from_graph`: the class's own request mapping, else a
    * scan of the supertypes that stops at the first with one. */
  method ClassMapping(cls: ClassRecord, ifaces: seq<ClassRecord>) returns (m: Option<Annotation>)
    ensures m == BaseMapping(cls, ifaces)
  {
    m := GetAnnotation(cls.annotations, {RequestMappingFqn});
    if m.None? {
      var i := 0;
      while i < |ifaces|
        invariant 0 <= i <= |ifaces|
        invariant BaseMapping(cls, ifaces) == BaseMapping(cls, ifaces[i..])
        invariant m.None?
      {
        assert ifaces[i..][1..] == ifaces[i + 1..];
        var im := GetAnnotation(ifaces[i].annotations, {RequestMappingFqn});
        if im.Some? {
          m := im;
          return;
        }
        i := i + 1;
      }
    }
  }

  /** The methods of the supertypes, in supertype order. */
  function IfaceMethods(ifaces: seq<ClassRecord>): seq<MethodRecord> {
    if ifaces == [] then [] else IfaceMethods(ifaces[..|ifaces| - 1]) + ifaces[|ifaces| - 1].methods
  }

  /** method name -> annotations, over the methods carrying some mapping; a later method of the
    * same name replaces an earlier one. */
  function MappedMethodMap(ms: seq<MethodRecord>): map<string, seq<Annotation>> {
    if ms == [] then map[]
    else
      var m := ms[|ms| - 1];
      var rest := MappedMethodMap(ms[..|ms| - 1]);
      if HasAnyMapping(m.annotations) then rest[m.name := m.annotations] else rest
  }

  /** The index of the last method named `n` that carries a mapping. */
  function LastMapped(ms: seq<MethodRecord>, n: string): (r: Option<nat>)
    ensures r.Some? ==> r.value < |ms| && ms[r.value].name == n && HasAnyMapping(ms[r.value].annotations)
    ensures r.Some? ==> forall j :: r.value < j < |ms| ==> !(ms[j].name == n && HasAnyMapping(ms[j].annotations))
    ensures r.None? ==> forall j :: 0 <= j < |ms| ==> !(ms[j].name == n && HasAnyMapping(ms[j].annotations))
  {
    if ms == [] then None
    else if ms[|ms| - 1].name == n && HasAnyMapping(ms[|ms| - 1].annotations) then Some(|ms| - 1)
    else LastMapped(ms[..|ms| - 1], n)
  }

  /** A name is in the map exactly when some method of that name carries a mapping, and it maps
    * to the annotations of the last such method. */
  lemma {:induction false} MappedMethodLastWins(ms: seq<MethodRecord>, n: string)
    ensures n in MappedMethodMap(ms) <==> LastMapped(ms, n).Some?
    ensures n in MappedMethodMap(ms) ==> MappedMethodMap(ms)[n] == ms[LastMapped(ms, n).value].annotations
  {
    if ms != [] {
      var init := ms[..|ms| - 1];
      MappedMethodLastWins(init, n);
      var m := ms[|ms| - 1];
      if !(m.name == n && HasAnyMapping(m.annotations)) && n in MappedMethodMap(init) {
        assert ms[LastMapped(init, n).value] == init[LastMapped(init, n).value];
      }
    }
  }

  /** Adds the mapped methods of `ms`, in order, to a map built from `done`. */
  method AddMappedMethods(m: map<string, seq<Annotation>>, done: seq<MethodRecord>, ms: seq<MethodRecord>)
    returns (m': map<string, seq<Annotation>>)
    requires m == MappedMethodMap(done)
    ensures m' == MappedMethodMap(done + ms)
  {
    m' := m;
    assert done + ms[..0] == done;
    for j := 0 to |ms|
      invariant m' == MappedMethodMap(done + ms[..j])
    {
      assert (done + ms[..j + 1])[..|done + ms[..j + 1]| - 1] == done + ms[..j];
      if HasAnyMapping(ms[j].annotations) {
        m' := m'[ms[j].name := ms[j].annotations];
      }
    }
    assert ms[..|ms|] == ms;
  }

  /** `_build_iface_method_map` */
  method BuildIfaceMethodMap(ifaces: seq<ClassRecord>) returns (m: map<string, seq<Annotation>>)
    ensures m == MappedMethodMap(IfaceMethods(ifaces))
  {
    m := map[];
    for i := 0 to |ifaces|
      invariant m == MappedMethodMap(IfaceMethods(ifaces[..i]))
    {
      assert ifaces[..i + 1][..i] == ifaces[..i];
      m := AddMappedMethods(m, IfaceMethods(ifaces[..i]), ifaces[i].methods);
    }
    assert ifaces[..|ifaces|] == ifaces;
  }

  /** The endpoint of one controller method: its own mapping, else the mapping of the
    * supertype method of the same name when it has none itself. */
  function MethodEndpoint(m: MethodRecord, ifaceMap: map<string, seq<Annotation>>, basePath: string): (r: Option<Endpoint>)
    ensures ResolveEndpoint(m.annotations, basePath).Some? ==> r == ResolveEndpoint(m.annotations, basePath)
    ensures ResolveEndpoint(m.annotations, basePath).None? ==>
            r == (if m.name in ifaceMap then ResolveEndpoint(ifaceMap[m.name], basePath) else None)
  {
    match ResolveEndpoint(m.annotations, basePath)
    case Some(e) => Some(e)
    case None => if m.name in ifaceMap then ResolveEndpoint(ifaceMap[m.name], basePath) else None
  }

  /** An endpoint inherited from a supertype is used only for a method with no mapping of its
    * own. */
  lemma InheritedOnlyWithoutOwnMapping(m: MethodRecord, ifaceMap: map<string, seq<Annotation>>, basePath: string)
    requires HasAnyMapping(m.annotations)
    ensures MethodEndpoint(m, ifaceMap, basePath) == ResolveEndpoint(m.annotations, basePath)
  {
    EndpointIffMapping(m.annotations, basePath);
  }

  datatype RestInterface = RestInterface(name: string, basePath: string, classFullName: string)

  datatype EndpointWrite = EndpointWrite(interfaceName: string, classFullName: string, methodFullName: string, ep: Endpoint)

  datatype WebStats = WebStats(controllers: nat, endpoints: nat)

  /** The REST interface a controller gets. */
  function InterfaceOf(cls: ClassRecord, resolve: string -> seq<ClassRecord>): RestInterface {
    RestInterface(cls.name, GetPath(BaseMapping(cls, resolve(cls.fullName))), cls.fullName)
  }

  /** The endpoint a controller method gets, if any. */
  function EndpointOf(cls: ClassRecord, m: MethodRecord, resolve: string -> seq<ClassRecord>): Option<Endpoint> {
    MethodEndpoint(m, MappedMethodMap(IfaceMethods(resolve(cls.fullName))), InterfaceOf(cls, resolve).basePath)
  }

  /** The endpoints of one controller's methods, in method order, skipping methods without one
    * and writes that fail. */
  method WriteEndpoints(cls: ClassRecord, basePath: string, ifaceMap: map<string, seq<Annotation>>, failingEndpoints: set<string>)
    returns (written: seq<EndpointWrite>)
    ensures |written| <= |cls.methods|
    ensures forall w :: w in written ==>
              w.interfaceName == cls.name && w.classFullName == cls.fullName && w.methodFullName !in failingEndpoints
              && exists m :: m in cls.methods && m.fullName == w.methodFullName
                             && MethodEndpoint(m, ifaceMap, basePath) == Some(w.ep)
    ensures forall m :: m in cls.methods && m.fullName !in failingEndpoints && MethodEndpoint(m, ifaceMap, basePath).Some? ==>
              EndpointWrite(cls.name, cls.fullName, m.fullName, MethodEndpoint(m, ifaceMap, basePath).value) in written
  {
    written := [];
    var ms := cls.methods;
    for j := 0 to |ms|
      invariant |written| <= j
      invariant forall w :: w in written ==>
                  w.interfaceName == cls.name && w.classFullName == cls.fullName && w.methodFullName !in failingEndpoints
                  && exists m :: m in ms && m.fullName == w.methodFullName && MethodEndpoint(m, ifaceMap, basePath) == Some(w.ep)
      invariant forall k :: 0 <= k < j && ms[k].fullName !in failingEndpoints && MethodEndpoint(ms[k], ifaceMap, basePath).Some? ==>
                  EndpointWrite(cls.name, cls.fullName, ms[k].fullName, MethodEndpoint(ms[k], ifaceMap, basePath).value) in written
    {
      var e := MethodEndpoint(ms[j], ifaceMap, basePath);
      if e.None? {
        continue;
      }
      if ms[j].fullName in failingEndpoints {
        continue;
      }
      written := written + [EndpointWrite(cls.name, cls.fullName, ms[j].fullName, e.value)];
    }
  }

  /** What the enrichment loop has written after the first `i` controllers. */
  ghost predicate EnrichInv(controllers: seq<ClassRecord>, i: nat, resolve: string -> seq<ClassRecord>,
                            failingInterfaces: set<string>, failingEndpoints: set<string>,
                            interfaces: seq<RestInterface>, endpoints: seq<EndpointWrite>)
  {
    && i <= |controllers|
    && (forall k :: 0 <= k < i && controllers[k].fullName !in failingInterfaces ==> InterfaceOf(controllers[k], resolve) in interfaces)
    && (forall ri :: ri in interfaces ==>
          ri.classFullName !in failingInterfaces && exists k :: 0 <= k < i && ri == InterfaceOf(controllers[k], resolve))
    && (forall w :: w in endpoints ==>
          w.methodFullName !in failingEndpoints &&
          exists k :: 0 <= k < i && InterfaceOf(controllers[k], resolve) in interfaces
                      && w.interfaceName == controllers[k].name && w.classFullName == controllers[k].fullName
                      && exists m :: m in controllers[k].methods && m.fullName == w.methodFullName
                                     && EndpointOf(controllers[k], m, resolve) == Some(w.ep))
    && (forall k, m :: 0 <= k < i && controllers[k].fullName !in failingInterfaces && m in controllers[k].methods
                       && m.fullName !in failingEndpoints && EndpointOf(controllers[k], m, resolve).Some? ==>
          EndpointWrite(controllers[k].name, controllers[k].fullName, m.fullName, EndpointOf(controllers[k], m, resolve).value) in endpoints)
  }

  /** One iteration of the controller loop. */
  method EnrichController(controllers: seq<ClassRecord>, i: nat, resolve: string -> seq<ClassRecord>,
                          failingInterfaces: set<string>, failingEndpoints: set<string>,
                          interfaces: seq<RestInterface>, endpoints: seq<EndpointWrite>, stats: WebStats)
    returns (interfaces': seq<RestInterface>, endpoints': seq<EndpointWrite>, stats': WebStats)
    requires i < |controllers|
    requires stats.endpoints == |endpoints|
    requires EnrichInv(controllers, i, resolve, failingInterfaces, failingEndpoints, interfaces, endpoints)
    ensures stats'.controllers == stats.controllers && stats'.endpoints == |endpoints'|
    ensures EnrichInv(controllers, i + 1, resolve, failingInterfaces, failingEndpoints, interfaces', endpoints')
  {
    interfaces', endpoints', stats' := interfaces, endpoints, stats;
    var c := controllers[i];
    var mapping := ClassMapping(c, resolve(c.fullName));
    var basePath := GetPath(mapping);
    if c.fullName in failingInterfaces {
      EnrichInvSkip(controllers, i, resolve, failingInterfaces, failingEndpoints, interfaces, endpoints);
      return;
    }
    var ri := RestInterface(c.name, basePath, c.fullName);
    assert ri == InterfaceOf(c, resolve);
    interfaces' := interfaces + [ri];
    var ifaceMap := BuildIfaceMethodMap(resolve(c.fullName));
    var written := WriteEndpoints(c, basePath, ifaceMap, failingEndpoints);
    assert forall m :: EndpointOf(c, m, resolve) == MethodEndpoint(m, ifaceMap, basePath);
    EnrichInvWrite(controllers, i, resolve, failingInterfaces, failingEndpoints, interfaces, endpoints, written);
    endpoints' := endpoints + written;
    stats' := stats.(endpoints := stats.endpoints + |written|);
  }

  /** A controller whose interface write fails adds nothing, and the invariant moves past it. */
  lemma EnrichInvSkip(controllers: seq<ClassRecord>, i: nat, resolve: string -> seq<ClassRecord>,
                      failingInterfaces: set<string>, failingEndpoints: set<string>,
                      interfaces: seq<RestInterface>, endpoints: seq<EndpointWrite>)
    requires i < |controllers| && controllers[i].fullName in failingInterfaces
    requires EnrichInv(controllers, i, resolve, failingInterfaces, failingEndpoints, interfaces, endpoints)
    ensures EnrichInv(controllers, i + 1, resolve, failingInterfaces, failingEndpoints, interfaces, endpoints)
  {
  }

  /** A controller whose interface is written, followed by the endpoints of its methods, keeps
    * the invariant. */
  lemma EnrichInvWrite(controllers: seq<ClassRecord>, i: nat, resolve: string -> seq<ClassRecord>,
                       failingInterfaces: set<string>, failingEndpoints: set<string>,
                       interfaces: seq<RestInterface>, endpoints: seq<EndpointWrite>, written: seq<EndpointWrite>)
    requires i < |controllers| && controllers[i].fullName !in failingInterfaces
    requires EnrichInv(controllers, i, resolve, failingInterfaces, failingEndpoints, interfaces, endpoints)
    requires forall w :: w in written ==>
               w.interfaceName == controllers[i].name && w.classFullName == controllers[i].fullName
               && w.methodFullName !in failingEndpoints
               && exists m :: m in controllers[i].methods && m.fullName == w.methodFullName
                              && EndpointOf(controllers[i], m, resolve) == Some(w.ep)
    requires forall m :: m in controllers[i].methods && m.fullName !in failingEndpoints && EndpointOf(controllers[i], m, resolve).Some? ==>
               EndpointWrite(controllers[i].name, controllers[i].fullName, m.fullName, EndpointOf(controllers[i], m, resolve).value) in written
    ensures EnrichInv(controllers, i + 1, resolve, failingInterfaces, failingEndpoints,
                      interfaces + [InterfaceOf(controllers[i], resolve)], endpoints + written)
  {
    var c := controllers[i];
    var interfaces', endpoints' := interfaces + [InterfaceOf(c, resolve)], endpoints + written;
    forall w | w in endpoints'
      ensures w.methodFullName !in failingEndpoints &&
              exists k :: 0 <= k < i + 1 && InterfaceOf(controllers[k], resolve) in interfaces'
                          && w.interfaceName == controllers[k].name && w.classFullName == controllers[k].fullName
                          && exists m :: m in controllers[k].methods && m.fullName == w.methodFullName
                                         && EndpointOf(controllers[k], m, resolve) == Some(w.ep)
    {
      if w in endpoints {
        var k :| 0 <= k < i && InterfaceOf(controllers[k], resolve) in interfaces
                 && w.interfaceName == controllers[k].name && w.classFullName == controllers[k].fullName
                 && exists m :: m in controllers[k].methods && m.fullName == w.methodFullName
                                && EndpointOf(controllers[k], m, resolve) == Some(w.ep);
        assert InterfaceOf(controllers[k], resolve) in interfaces';
      } else {
        assert w in written;
        assert InterfaceOf(controllers[i], resolve) in interfaces';
      }
    }
  }

  /** `enrich_from_graph`: every controller of the module is counted; its REST interface is
    * written with the base path of its class mapping (a failed write skips the controller's
    * endpoints); then each method with an endpoint gets one, and only successful endpoint writes
    * are counted. `resolve` gives a class's supertypes as found in the graph. */
  method EnrichFromGraph(rows: seq<StoredClass>, resolve: string -> seq<ClassRecord>,
                         failingInterfaces: set<string>, failingEndpoints: set<string>)
    returns (stats: WebStats, interfaces: seq<RestInterface>, endpoints: seq<EndpointWrite>)
    ensures stats.controllers == |LoadControllers(rows)|
    ensures stats.endpoints == |endpoints|
    ensures forall c :: c in LoadControllers(rows) ==>
              (InterfaceOf(c, resolve) in interfaces <==> c.fullName !in failingInterfaces)
    ensures forall ri :: ri in interfaces ==> exists c :: c in LoadControllers(rows) && ri == InterfaceOf(c, resolve)
    ensures forall w :: w in endpoints ==>
              w.methodFullName !in failingEndpoints &&
              exists c :: c in LoadControllers(rows) && InterfaceOf(c, resolve) in interfaces
                          && w.interfaceName == c.name && w.classFullName == c.fullName
                          && exists m :: m in c.methods && m.fullName == w.methodFullName && EndpointOf(c, m, resolve) == Some(w.ep)
    ensures forall c, m :: c in LoadControllers(rows) && c.fullName !in failingInterfaces && m in c.methods
                           && m.fullName !in failingEndpoints && EndpointOf(c, m, resolve).Some? ==>
              EndpointWrite(c.name, c.fullName, m.fullName, EndpointOf(c, m, resolve).value) in endpoints
  {
    var controllers := LoadControllers(rows);
    stats := WebStats(0, 0);
    interfaces := [];
    endpoints := [];
    for i := 0 to |controllers|
      invariant stats.controllers == i && stats.endpoints == |endpoints|
      invariant EnrichInv(controllers, i, resolve, failingInterfaces, failingEndpoints, interfaces, endpoints)
    {
      stats := stats.(controllers := stats.controllers + 1);
      interfaces, endpoints, stats := EnrichController(controllers, i, resolve, failingInterfaces, failingEndpoints,
                                                       interfaces, endpoints, stats);
    }
    EnrichInvDone(controllers, resolve, failingInterfaces, failingEndpoints, interfaces, endpoints);
  }

  /** The invariant over the whole controller list, stated by controller rather than by index. */
  lemma EnrichInvDone(controllers: seq<ClassRecord>, resolve: string -> seq<ClassRecord>,
                      failingInterfaces: set<string>, failingEndpoints: set<string>,
                      interfaces: seq<RestInterface>, endpoints: seq<EndpointWrite>)
    requires EnrichInv(controllers, |controllers|, resolve, failingInterfaces, failingEndpoints, interfaces, endpoints)
    ensures forall c :: c in controllers ==>
              (InterfaceOf(c, resolve) in interfaces <==> c.fullName !in failingInterfaces)
    ensures forall ri :: ri in interfaces ==> exists c :: c in controllers && ri == InterfaceOf(c, resolve)
    ensures forall w :: w in endpoints ==>
              w.methodFullName !in failingEndpoints &&
              exists c :: c in controllers && InterfaceOf(c, resolve) in interfaces
                          && w.interfaceName == c.name && w.classFullName == c.fullName
                          && exists m :: m in c.methods && m.fullName == w.methodFullName && EndpointOf(c, m, resolve) == Some(w.ep)
    ensures forall c, m :: c in controllers && c.fullName !in failingInterfaces && m in c.methods
                           && m.fullName !in failingEndpoints && EndpointOf(c, m, resolve).Some? ==>
              EndpointWrite(c.name, c.fullName, m.fullName, EndpointOf(c, m, resolve).value) in endpoints
  {
    forall c | c in controllers
      ensures InterfaceOf(c, resolve) in interfaces <==> c.fullName !in failingInterfaces
    {
      var k :| 0 <= k < |controllers| && controllers[k] == c;
      if InterfaceOf(c, resolve) in interfaces {
        assert InterfaceOf(c, resolve).classFullName == c.fullName;
      }
    }
    forall ri | ri in interfaces
      ensures exists c :: c in controllers && ri == InterfaceOf(c, resolve)
    {
      var k :| 0 <= k < |controllers| && ri == InterfaceOf(controllers[k], resolve);
      assert controllers[k] in controllers;
    }
    forall w | w in endpoints
      ensures exists c :: c in controllers && InterfaceOf(c, resolve) in interfaces
                          && w.interfaceName == c.name && w.classFullName == c.fullName
                          && exists m :: m in c.methods && m.fullName == w.methodFullName && EndpointOf(c, m, resolve) == Some(w.ep)
    {
      var k :| 0 <= k < |controllers| && InterfaceOf(controllers[k], resolve) in interfaces
               && w.interfaceName == controllers[k].name && w.classFullName == controllers[k].fullName
               && exists m :: m in controllers[k].methods && m.fullName == w.methodFullName
                              && EndpointOf(controllers[k], m, resolve) == Some(w.ep);
      assert controllers[k] in controllers;
    }
    forall c, m | c in controllers && c.fullName !in failingInterfaces && m in c.methods
                  && m.fullName !in failingEndpoints && EndpointOf(c, m, resolve).Some?
      ensures EndpointWrite(c.name, c.fullName, m.fullName, EndpointOf(c, m, resolve).value) in endpoints
    {
      var k :| 0 <= k < |controllers| && controllers[k] == c;
    }
  }
}
