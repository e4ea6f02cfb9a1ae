/** The REST client enricher (backend/app/analyzers/enrichers/rest_client.py): every class that
  * imports RestTemplate, and then every class that imports WebClient (by name or by star import
  * of the package), becomes an HTTPClient node of that client type. */
module RestClient {
  import opened Wrappers
  import opened NodeWrites

  /** The two HTTP client libraries, in the order the enricher visits them. */
  datatype ClientType = RestTemplate | WebClient {
    function Fqn(): string {
      match this
      case RestTemplate => "org.springframework.web.client.RestTemplate"
      case WebClient => "org.springframework.web.reactive.function.client.WebClient"
    }
    function Pkg(): string {
      match this
      case RestTemplate => "org.springframework.web.client"
      case WebClient => "org.springframework.web.reactive.function.client"
    }
    function Name(): string {
      match this
      case RestTemplate => "RestTemplate"
      case WebClient => "WebClient"
    }
  }

  /** Each client type's class sits in its package, under its own name. */
  lemma ClientTypeNaming(t: ClientType)
    ensures t.Fqn() == t.Pkg() + "." + t.Name()
  {
  }

  /** A class row: its imports and star imports (null read as empty). */
  datatype ClassRow = ClassRow(fullName: string, name: string, imports: seq<string>, starImports: seq<string>)

  datatype HttpClient = HttpClient(name: string, clientType: string, classFullName: string)

  /** The query's filter for one client type: the class imports its class, or star-imports its
    * package. */
  predicate Uses(t: ClientType, row: ClassRow) {
    t.Fqn() in row.imports || t.Pkg() in row.starImports
  }

  /** The client node a row gets in the pass for `t`. */
  function ClientOf(t: ClientType, row: ClassRow): (r: Option<HttpClient>)
    ensures r.Some? <==> Uses(t, row)
    ensures r.Some? ==> r.value == HttpClient(row.name, t.Name(), row.fullName)
  {
    if Uses(t, row) then Some(HttpClient(row.name, t.Name(), row.fullName)) else None
  }

  /** A class using both libraries gets one node of each type. */
  lemma BothTypes(row: ClassRow)
    requires Uses(RestTemplate, row) && Uses(WebClient, row)
    ensures ClientOf(RestTemplate, row).Some? && ClientOf(WebClient, row).Some?
    ensures ClientOf(RestTemplate, row) != ClientOf(WebClient, row)
  {
  }

  /** `_process_client` for one client type: the writes that succeed, and their count. */
  method ProcessClient(rows: seq<ClassRow>, t: ClientType, failing: set<string>) returns (written: seq<HttpClient>, count: nat)
    ensures count == |written| <= NodeRows(rows, r => ClientOf(t, r))
    ensures forall c :: c in written <==> exists r :: r in rows && ClientOf(t, r) == Some(c) && r.fullName !in failing
    ensures forall c :: c in written ==> c.clientType == t.Name()
    ensures failing == {} ==> count == NodeRows(rows, r => ClientOf(t, r))
  {
    written, count := WriteAll(rows, r => ClientOf(t, r), (r: ClassRow) => r.fullName, failing);
    WrittenMembers(rows, r => ClientOf(t, r), (r: ClassRow) => r.fullName, failing);
    WrittenCount(rows, r => ClientOf(t, r), (r: ClassRow) => r.fullName, failing);
  }

  /** No RestTemplate client follows a WebClient one. */
  predicate RestBeforeWeb(written: seq<HttpClient>) {
    forall i, j :: 0 <= i < j < |written| ==> !(written[i].clientType == "WebClient" && written[j].clientType == "RestTemplate")
  }

  /** One pass's clients followed by the other's are in order. */
  lemma PassesInOrder(rest: seq<HttpClient>, web: seq<HttpClient>)
    requires forall c :: c in rest ==> c.clientType == "RestTemplate"
    requires forall c :: c in web ==> c.clientType == "WebClient"
    ensures RestBeforeWeb(rest + web)
  {
    var w := rest + web;
    forall i, j | 0 <= i < j < |w|
      ensures !(w[i].clientType == "WebClient" && w[j].clientType == "RestTemplate")
    {
      if j < |rest| {
        assert w[i] == rest[i] && w[j] == rest[j] && rest[j] in rest;
      } else {
        assert w[j] == web[j - |rest|] && web[j - |rest|] in web;
      }
    }
  }

  /** `enrich_from_graph`: the RestTemplate pass, then the WebClient pass, each write failing
    * independently; all RestTemplate clients come before all WebClient ones, every client written
    * is a using class's, and the count is the number of writes that succeeded. */
  method EnrichFromGraph(rows: seq<ClassRow>, failingRest: set<string>, failingWeb: set<string>)
    returns (written: seq<HttpClient>, httpClients: nat)
    ensures httpClients == |written|
    ensures RestBeforeWeb(written)
    ensures forall c :: c in written <==>
              (exists r :: r in rows && ClientOf(RestTemplate, r) == Some(c) && r.fullName !in failingRest)
              || (exists r :: r in rows && ClientOf(WebClient, r) == Some(c) && r.fullName !in failingWeb)
    ensures failingRest == {} && failingWeb == {} ==>
              httpClients == NodeRows(rows, r => ClientOf(RestTemplate, r)) + NodeRows(rows, r => ClientOf(WebClient, r))
  {
    var rest, restCount := ProcessClient(rows, RestTemplate, failingRest);
    var web, webCount := ProcessClient(rows, WebClient, failingWeb);
    written := rest + web;
    httpClients := restCount + webCount;
    PassesInOrder(rest, web);
  }
}
