/** The Feign client enricher (backend/app/analyzers/enrichers/feign_client.py): the client node
  * written for each class annotated `@FeignClient`, and the outgoing endpoints of its methods.
  * Path handling is the same as the Spring Web enricher's; the generic mapping's verb table lacks
  * HEAD and OPTIONS, and no media types are recorded. */
module FeignClient {
  import opened Wrappers
  import opened Metamodel
  import opened EnricherBase
  import opened Seqs
  import opened GraphRecords
  import SpringWeb

  const FeignClientFqn := "org.springframework.cloud.openfeign.FeignClient"

  /** The `RequestMethod` values this enricher knows: the Spring Web table without HEAD and
    * OPTIONS. */
  function FeignRequestMethod(v: string): (r: Option<string>)
    ensures r.Some? ==> r.value in {"GET", "POST", "PUT", "DELETE", "PATCH"}
  {
    match v
    case "RequestMethod.GET" => Some("GET")
    case "RequestMethod.POST" => Some("POST")
    case "RequestMethod.PUT" => Some("PUT")
    case "RequestMethod.DELETE" => Some("DELETE")
    case "RequestMethod.PATCH" => Some("PATCH")
    case "GET" => Some("GET")
    case "POST" => Some("POST")
    case "PUT" => Some("PUT")
    case "DELETE" => Some("DELETE")
    case "PATCH" => Some("PATCH")
    case _ => None
  }

  /** The two verb tables agree except that HEAD and OPTIONS are unknown here. */
  lemma FeignTableIsWebTableWithoutHeadOptions(v: string)
    ensures FeignRequestMethod(v) ==
            (if v == "RequestMethod.HEAD" || v == "RequestMethod.OPTIONS" then None else SpringWeb.RequestMethod(v))
  {
  }

  /** The verb of a generic request mapping: its `method` argument (the first element of a
    * list) when it is a known value, GET otherwise. */
  function FeignHttpMethod(ann: Annotation): (r: string)
    ensures r in {"GET", "POST", "PUT", "DELETE", "PATCH"}
  {
    if NoArgs(ann) then "GET"
    else
      match Lookup(ArgsOf(ann), "method")
      case None => "GET"
      case Some(v) => if Truthy(v) && FirstText(v) != "" then FeignRequestMethod(FirstText(v)).GetOr("GET") else "GET"
  }

  /** The generic mapping's verb is the Spring Web one, except that HEAD and OPTIONS fall back
    * to GET. */
  lemma FeignVerbMatchesWeb(ann: Annotation)
    ensures var web := SpringWeb.ResolveHttpMethod(ann).GetOr("GET");
            FeignHttpMethod(ann) == (if web == "HEAD" || web == "OPTIONS" then "GET" else web)
  {
    if !NoArgs(ann) && "method" in ArgsOf(ann) {
      var v := ArgsOf(ann)["method"];
      FeignTableIsWebTableWithoutHeadOptions(FirstText(v));
    }
  }

  datatype FeignEndpoint = FeignEndpoint(path: string, httpMethod: string)

  /** `_resolve_endpoint`: the first verb-specific mapping in table order, else the generic
    * request mapping with its verb or GET; the path joins the client's base path and the
    * mapping's path. */
  function ResolveFeignEndpoint(anns: seq<Annotation>, basePath: string): Option<FeignEndpoint> {
    match SpringWeb.VerbIndex(anns, 0)
    case Some(k) =>
      var a := GetAnnotation(anns, {SpringWeb.VerbMappings[k]}).value;
      Some(FeignEndpoint(SpringWeb.JoinPaths(basePath, SpringWeb.GetPath(Some(a))), SpringWeb.VerbNames[k]))
    case None =>
      match GetAnnotation(anns, {SpringWeb.RequestMappingFqn})
      case Some(a) => Some(FeignEndpoint(SpringWeb.JoinPaths(basePath, SpringWeb.GetPath(Some(a))), FeignHttpMethod(a)))
      case None => None
  }

  /** A Feign method has an endpoint exactly when a Spring Web method with the same annotations
    * would, at the same path; the verb is the same except that HEAD and OPTIONS become GET. */
  lemma FeignEndpointMatchesWeb(anns: seq<Annotation>, basePath: string)
    ensures ResolveFeignEndpoint(anns, basePath).Some? <==> SpringWeb.ResolveEndpoint(anns, basePath).Some?
    ensures ResolveFeignEndpoint(anns, basePath).Some? ==>
            var f := ResolveFeignEndpoint(anns, basePath).value;
            var w := SpringWeb.ResolveEndpoint(anns, basePath).value;
            f.path == w.path && f.httpMethod == (if w.httpMethod == "HEAD" || w.httpMethod == "OPTIONS" then "GET" else w.httpMethod)
  {
    if SpringWeb.VerbIndex(anns, 0).None? && GetAnnotation(anns, {SpringWeb.RequestMappingFqn}).Some? {
      FeignVerbMatchesWeb(GetAnnotation(anns, {SpringWeb.RequestMappingFqn}).value);
    }
  }

  /** The Feign client node of a class. */
  datatype ClientNode = ClientNode(name: string, url: string, path: string, serviceId: string, classFullName: string)

  /** The client node `enrich_from_graph` writes for a class, or nothing when the class lacks
    * the `@FeignClient` annotation: the name is the `name` argument, else `value`, else the class
    * name; the service id is the same argument or ""; `url` and `path` are read as given. */
  function ClientOf(cls: ClassRecord): Option<ClientNode> {
    match GetAnnotation(cls.annotations, {FeignClientFqn})
    case None => None
    case Some(ann) =>
      var args := ArgsOf(ann);
      var named := Or(Lookup(args, "name"), Lookup(args, "value"));
      var name := if named.Some? then FirstText(named.value) else cls.name;
      var serviceId := if named.Some? then FirstText(named.value) else "";
      Some(ClientNode(name, ArgText(args, "url"), ArgText(args, "path"), serviceId, cls.fullName))
  }

  /** The client name and the service id come from the same argument when the annotation names
    * the service; otherwise the name is the class name and the service id is empty. Only
    * annotated classes get a node, and it points at its class. */
  lemma ClientNaming(cls: ClassRecord)
    ensures ClientOf(cls).Some? <==> exists i :: 0 <= i < |cls.annotations| && cls.annotations[i].name == FeignClientFqn
    ensures ClientOf(cls).Some? ==> ClientOf(cls).value.classFullName == cls.fullName
    ensures ClientOf(cls).Some? ==>
            var c := ClientOf(cls).value;
            var args := ArgsOf(GetAnnotation(cls.annotations, {FeignClientFqn}).value);
            if ("name" in args && Truthy(args["name"])) || ("value" in args && Truthy(args["value"]))
            then c.name == c.serviceId
                 && c.serviceId == FirstText(if "name" in args && Truthy(args["name"]) then args["name"] else args["value"])
            else c.name == cls.name && c.serviceId == ""
  {
    if !exists i :: 0 <= i < |cls.annotations| && cls.annotations[i].name == FeignClientFqn {
      assert forall i :: 0 <= i < |cls.annotations| ==> cls.annotations[i].name !in {FeignClientFqn};
    } else {
      var i :| 0 <= i < |cls.annotations| && cls.annotations[i].name == FeignClientFqn;
      assert cls.annotations[i].name in {FeignClientFqn};
    }
  }

  predicate IsFeignClient(cls: ClassRecord) {
    GetAnnotation(cls.annotations, {FeignClientFqn}).Some?
  }

  /** `_load_feign_clients`: the module's classes that carry `@FeignClient`, decoded, in order. */
  function LoadFeignClients(rows: seq<StoredClass>): (r: seq<ClassRecord>)
    ensures |r| <= |rows|
    ensures forall c :: c in r <==> exists i :: 0 <= i < |rows| && c == DecodeClass(rows[i]) && IsFeignClient(c)
  {
    FilterMap(rows, DecodeClass, IsFeignClient)
  }

  datatype FeignEndpointWrite = FeignEndpointWrite(classFullName: string, methodFullName: string, ep: FeignEndpoint)

  datatype FeignStats = FeignStats(clients: nat, endpoints: nat)

  /** The endpoint a client method gets, if any. */
  function ClientEndpointOf(c: ClientNode, m: MethodRecord): Option<FeignEndpoint> {
    ResolveFeignEndpoint(m.annotations, c.path)
  }

  /** The client nodes written for the first `i` classes: one for each annotated class whose
    * write succeeds, and nothing else. */
  ghost predicate NodesInv(clients: seq<ClassRecord>, i: nat, failingClients: set<string>, written: seq<ClientNode>) {
    && i <= |clients| && |written| <= i
    && (forall k :: 0 <= k < i && ClientOf(clients[k]).Some? && clients[k].fullName !in failingClients ==>
          ClientOf(clients[k]).value in written)
    && (forall n :: n in written ==>
          n.classFullName !in failingClients && exists k :: 0 <= k < i && ClientOf(clients[k]) == Some(n))
  }

  /** Every endpoint written belongs to a method of one of the first `i` classes whose node was
    * written. */
  ghost predicate EndpointsSound(clients: seq<ClassRecord>, i: nat, failingEndpoints: set<string>,
                                 written: seq<ClientNode>, endpoints: seq<FeignEndpointWrite>)
    requires i <= |clients|
  {
    forall w :: w in endpoints ==>
      w.methodFullName !in failingEndpoints &&
      exists k :: 0 <= k < i && ClientOf(clients[k]).Some? && ClientOf(clients[k]).value in written
                  && w.classFullName == clients[k].fullName
                  && exists m :: m in clients[k].methods && m.fullName == w.methodFullName
                                 && ClientEndpointOf(ClientOf(clients[k]).value, m) == Some(w.ep)
  }

  /** Every method of the first `i` classes whose client and endpoint writes succeed has its
    * endpoint written. */
  ghost predicate EndpointsComplete(clients: seq<ClassRecord>, i: nat, failingClients: set<string>, failingEndpoints: set<string>,
                                    endpoints: seq<FeignEndpointWrite>)
    requires i <= |clients|
  {
    forall k, m :: 0 <= k < i && ClientOf(clients[k]).Some? && clients[k].fullName !in failingClients
                   && m in clients[k].methods && m.fullName !in failingEndpoints
                   && ClientEndpointOf(ClientOf(clients[k]).value, m).Some? ==>
      FeignEndpointWrite(clients[k].fullName, m.fullName, ClientEndpointOf(ClientOf(clients[k]).value, m).value) in endpoints
  }

  /** What the client loop has written after the first `i` classes. */
  ghost predicate ClientsInv(clients: seq<ClassRecord>, i: nat, failingClients: set<string>, failingEndpoints: set<string>,
                             written: seq<ClientNode>, endpoints: seq<FeignEndpointWrite>)
  {
    && NodesInv(clients, i, failingClients, written)
    && EndpointsSound(clients, i, failingEndpoints, written, endpoints)
    && EndpointsComplete(clients, i, failingClients, failingEndpoints, endpoints)
  }

  /** The endpoints of one written client's methods, in method order, skipping methods without
    * one and writes that fail. */
  method WriteClientEndpoints(cls: ClassRecord, c: ClientNode, failingEndpoints: set<string>)
    returns (written: seq<FeignEndpointWrite>)
    ensures |written| <= |cls.methods|
    ensures forall w :: w in written ==>
              w.classFullName == cls.fullName && w.methodFullName !in failingEndpoints
              && exists m :: m in cls.methods && m.fullName == w.methodFullName && ClientEndpointOf(c, m) == Some(w.ep)
    ensures forall m :: m in cls.methods && m.fullName !in failingEndpoints && ClientEndpointOf(c, m).Some? ==>
              FeignEndpointWrite(cls.fullName, m.fullName, ClientEndpointOf(c, m).value) in written
  {
    written := [];
    var ms := cls.methods;
    for j := 0 to |ms|
      invariant |written| <= j
      invariant forall w :: w in written ==>
                  w.classFullName == cls.fullName && w.methodFullName !in failingEndpoints
                  && exists m :: m in ms && m.fullName == w.methodFullName && ClientEndpointOf(c, m) == Some(w.ep)
      invariant forall k :: 0 <= k < j && ms[k].fullName !in failingEndpoints && ClientEndpointOf(c, ms[k]).Some? ==>
                  FeignEndpointWrite(cls.fullName, ms[k].fullName, ClientEndpointOf(c, ms[k]).value) in written
    {
      var e := ResolveFeignEndpoint(ms[j].annotations, c.path);
      assert e == ClientEndpointOf(c, ms[j]);
      if e.None? {
        continue;
      }
      if ms[j].fullName in failingEndpoints {
        continue;
      }
      assert ms[j] in ms;
      written := written + [FeignEndpointWrite(cls.fullName, ms[j].fullName, e.value)];
    }
    forall m | m in ms && m.fullName !in failingEndpoints && ClientEndpointOf(c, m).Some?
      ensures FeignEndpointWrite(cls.fullName, m.fullName, ClientEndpointOf(c, m).value) in written
    {
      var k :| 0 <= k < |ms| && ms[k] == m;
    }
  }

  /** A class that gets no client node, or whose write fails, adds nothing. */
  lemma ClientsInvSkip(clients: seq<ClassRecord>, i: nat, failingClients: set<string>, failingEndpoints: set<string>,
                       written: seq<ClientNode>, endpoints: seq<FeignEndpointWrite>)
    requires i < |clients|
    requires ClientOf(clients[i]).None? || clients[i].fullName in failingClients
    requires ClientsInv(clients, i, failingClients, failingEndpoints, written, endpoints)
    ensures ClientsInv(clients, i + 1, failingClients, failingEndpoints, written, endpoints)
  {
  }

  /** The endpoint writes of the `i`-th class's methods: exactly those of a written client. */
  ghost predicate ClassEndpoints(cls: ClassRecord, node: ClientNode, failingEndpoints: set<string>, ws: seq<FeignEndpointWrite>) {
    && (forall w :: w in ws ==>
          w.classFullName == cls.fullName && w.methodFullName !in failingEndpoints
          && exists m :: m in cls.methods && m.fullName == w.methodFullName && ClientEndpointOf(node, m) == Some(w.ep))
    && (forall m :: m in cls.methods && m.fullName !in failingEndpoints && ClientEndpointOf(node, m).Some? ==>
          FeignEndpointWrite(cls.fullName, m.fullName, ClientEndpointOf(node, m).value) in ws)
  }

  lemma NodesInvWrite(clients: seq<ClassRecord>, i: nat, failingClients: set<string>, written: seq<ClientNode>, node: ClientNode)
    requires i < |clients|
    requires ClientOf(clients[i]) == Some(node) && clients[i].fullName !in failingClients
    requires NodesInv(clients, i, failingClients, written)
    ensures NodesInv(clients, i + 1, failingClients, written + [node])
  {
    assert node.classFullName == clients[i].fullName;
  }

  lemma EndpointsSoundWrite(clients: seq<ClassRecord>, i: nat, failingEndpoints: set<string>,
                            written: seq<ClientNode>, endpoints: seq<FeignEndpointWrite>, node: ClientNode, ws: seq<FeignEndpointWrite>)
    requires i < |clients|
    requires ClientOf(clients[i]) == Some(node)
    requires EndpointsSound(clients, i, failingEndpoints, written, endpoints)
    requires ClassEndpoints(clients[i], node, failingEndpoints, ws)
    ensures EndpointsSound(clients, i + 1, failingEndpoints, written + [node], endpoints + ws)
  {
  }

  lemma EndpointsCompleteWrite(clients: seq<ClassRecord>, i: nat, failingClients: set<string>, failingEndpoints: set<string>,
                               endpoints: seq<FeignEndpointWrite>, node: ClientNode, ws: seq<FeignEndpointWrite>)
    requires i < |clients|
    requires ClientOf(clients[i]) == Some(node)
    requires EndpointsComplete(clients, i, failingClients, failingEndpoints, endpoints)
    requires ClassEndpoints(clients[i], node, failingEndpoints, ws)
    ensures EndpointsComplete(clients, i + 1, failingClients, failingEndpoints, endpoints + ws)
  {
  }

  /** One iteration of the client loop: a class without the annotation is skipped; a client
    * whose write fails is neither counted nor given endpoints. */
  method EnrichClient(clients: seq<ClassRecord>, i: nat, failingClients: set<string>, failingEndpoints: set<string>,
                      written: seq<ClientNode>, endpoints: seq<FeignEndpointWrite>, stats: FeignStats)
    returns (written': seq<ClientNode>, endpoints': seq<FeignEndpointWrite>, stats': FeignStats)
    requires i < |clients|
    requires stats.clients == |written| && stats.endpoints == |endpoints|
    requires ClientsInv(clients, i, failingClients, failingEndpoints, written, endpoints)
    ensures stats'.clients == |written'| && stats'.endpoints == |endpoints'|
    ensures ClientsInv(clients, i + 1, failingClients, failingEndpoints, written', endpoints')
  {
    written', endpoints', stats' := written, endpoints, stats;
    var cls := clients[i];
    var node := ClientOf(cls);
    if node.None? || cls.fullName in failingClients {
      ClientsInvSkip(clients, i, failingClients, failingEndpoints, written, endpoints);
      return;
    }
    var ws := WriteClientEndpoints(cls, node.value, failingEndpoints);
    NodesInvWrite(clients, i, failingClients, written, node.value);
    EndpointsSoundWrite(clients, i, failingEndpoints, written, endpoints, node.value, ws);
    EndpointsCompleteWrite(clients, i, failingClients, failingEndpoints, endpoints, node.value, ws);
    written' := written + [node.value];
    endpoints' := endpoints + ws;
    stats' := FeignStats(stats.clients + 1, stats.endpoints + |ws|);
  }

  /** The loop of `enrich_from_graph` over the loaded classes: only successful client writes are
    * counted, and only successful endpoint writes. */
  method EnrichClients(clients: seq<ClassRecord>, failingClients: set<string>, failingEndpoints: set<string>)
    returns (stats: FeignStats, written: seq<ClientNode>, endpoints: seq<FeignEndpointWrite>)
    ensures stats.clients == |written| <= |clients| && stats.endpoints == |endpoints|
    ensures forall c :: c in clients && ClientOf(c).Some? ==>
              (ClientOf(c).value in written <==> c.fullName !in failingClients)
    ensures forall n :: n in written ==> n.classFullName !in failingClients && exists c :: c in clients && ClientOf(c) == Some(n)
    ensures forall w :: w in endpoints ==>
              w.methodFullName !in failingEndpoints &&
              exists c :: c in clients && ClientOf(c).Some? && ClientOf(c).value in written && w.classFullName == c.fullName
                          && exists m :: m in c.methods && m.fullName == w.methodFullName
                                         && ClientEndpointOf(ClientOf(c).value, m) == Some(w.ep)
    ensures forall c, m :: c in clients && ClientOf(c).Some? && c.fullName !in failingClients && m in c.methods
                           && m.fullName !in failingEndpoints && ClientEndpointOf(ClientOf(c).value, m).Some? ==>
              FeignEndpointWrite(c.fullName, m.fullName, ClientEndpointOf(ClientOf(c).value, m).value) in endpoints
  {
    stats := FeignStats(0, 0);
    written := [];
    endpoints := [];
    for i := 0 to |clients|
      invariant stats.clients == |written| && stats.endpoints == |endpoints|
      invariant ClientsInv(clients, i, failingClients, failingEndpoints, written, endpoints)
    {
      written, endpoints, stats := EnrichClient(clients, i, failingClients, failingEndpoints, written, endpoints, stats);
    }
  }

  /** `enrich_from_graph`: load the module's Feign clients and write them and their endpoints. */
  method EnrichFromGraph(rows: seq<StoredClass>, failingClients: set<string>, failingEndpoints: set<string>)
    returns (stats: FeignStats, written: seq<ClientNode>, endpoints: seq<FeignEndpointWrite>)
    ensures stats.clients == |written| <= |rows|
    ensures stats.endpoints == |endpoints|
    ensures forall n :: n in written ==>
              n.classFullName !in failingClients && exists c :: c in LoadFeignClients(rows) && ClientOf(c) == Some(n)
    ensures forall c :: c in LoadFeignClients(rows) ==>
              ClientOf(c).Some? && (ClientOf(c).value in written <==> c.fullName !in failingClients)
    ensures forall w :: w in endpoints ==>
              w.methodFullName !in failingEndpoints &&
              exists c :: c in LoadFeignClients(rows) && ClientOf(c).Some? && ClientOf(c).value in written
                          && w.classFullName == c.fullName
                          && exists m :: m in c.methods && m.fullName == w.methodFullName
                                         && ClientEndpointOf(ClientOf(c).value, m) == Some(w.ep)
    ensures forall c, m :: c in LoadFeignClients(rows) && ClientOf(c).Some? && c.fullName !in failingClients
                           && m in c.methods && m.fullName !in failingEndpoints
                           && ClientEndpointOf(ClientOf(c).value, m).Some? ==>
              FeignEndpointWrite(c.fullName, m.fullName, ClientEndpointOf(ClientOf(c).value, m).value) in endpoints
  {
    var clients := LoadFeignClients(rows);
    stats, written, endpoints := EnrichClients(clients, failingClients, failingEndpoints);
  }
}
