/** The graph query router (backend/app/routers/query.py): the AI provider used to write
  * Cypher, the generated query's fence removal and read-only gate, the expansion of a node by a
  * named operation, and the merge that adds the parent class of methods that came back without
  * one. The AI call, the Cypher texts and the Neo4j reads are inputs. */
module Query {
  import opened Wrappers
  import opened Strs
  import opened Fences
  import opened AiConfig
  import opened CypherValidator
  import opened Session

  // ---------------------------------------------------------------------------------------
  // _find_query_provider
  // ---------------------------------------------------------------------------------------

  /** `_find_query_provider`: the provider of the `cypher_generation` task, else that of the
    * `repository_analysis` task, else the first provider; 400 when none is configured. */
  function FindQueryProvider(cfg: Config): (r: Result<Provider, HttpError>)
    ensures r.Err? <==> cfg.providers == []
    ensures r.Err? ==> r.error == HttpError(400, "No AI provider configured")
    ensures r.Ok? ==> r.value in cfg.providers
    ensures TaskProvider(cfg, "cypher_generation").Some? ==> r == Ok(TaskProvider(cfg, "cypher_generation").value)
    ensures TaskProvider(cfg, "cypher_generation").None? && TaskProvider(cfg, "repository_analysis").Some? ==>
              r == Ok(TaskProvider(cfg, "repository_analysis").value)
    ensures (TaskProvider(cfg, "cypher_generation").None? && TaskProvider(cfg, "repository_analysis").None?
             && cfg.providers != []) ==> r == Ok(cfg.providers[0])
  {
    match TaskProvider(cfg, "cypher_generation")
    case Some(p) => Ok(p)
    case None =>
      match TaskProvider(cfg, "repository_analysis")
      case Some(p) => Ok(p)
      case None => if cfg.providers != [] then Ok(cfg.providers[0]) else Err(HttpError(400, "No AI provider configured"))
  }

  // ---------------------------------------------------------------------------------------
  // Graph results
  // ---------------------------------------------------------------------------------------

  /** A node of a graph result (its properties are not modelled). */
  datatype GraphNode = GraphNode(id: string, labels: seq<string>)

  /** A relationship of a graph result. */
  datatype GraphRel = GraphRel(id: string, relType: string, startNodeId: string, endNodeId: string)

  function NodeKey(n: GraphNode): string { n.id }
  function RelKey(r: GraphRel): string { r.id }

  function KeysOf<T>(xs: seq<T>, key: T -> string): set<string> {
    set i | 0 <= i < |xs| :: key(xs[i])
  }

  predicate UniqueKeys<T>(xs: seq<T>, key: T -> string) {
    forall i, j :: 0 <= i < j < |xs| ==> key(xs[i]) != key(xs[j])
  }

  /** The loop over fetched entries: each is appended when its id is not yet present. */
  function AppendNew<T>(xs: seq<T>, ys: seq<T>, key: T -> string): seq<T> {
    if ys == [] then xs
    else
      var front := AppendNew(xs, ys[..|ys| - 1], key);
      var y := ys[|ys| - 1];
      if key(y) in KeysOf(front, key) then front else front + [y]
  }

  lemma KeysSnoc<T>(xs: seq<T>, y: T, key: T -> string)
    ensures KeysOf(xs + [y], key) == KeysOf(xs, key) + {key(y)}
  {
    var r := xs + [y];
    forall k | k in KeysOf(xs, key)
      ensures k in KeysOf(r, key)
    {
      var i :| 0 <= i < |xs| && key(xs[i]) == k;
      assert r[i] == xs[i];
    }
    assert r[|xs|] == y;
    forall k | k in KeysOf(r, key)
      ensures k in KeysOf(xs, key) + {key(y)}
    {
      var i :| 0 <= i < |r| && key(r[i]) == k;
      if i < |xs| {
        assert r[i] == xs[i];
      }
    }
  }

  /** The merge keeps the existing entries in their order and appends only fetched entries whose
    * id was not present, so the ids become those of both lists and unique ids stay unique. */
  lemma {:induction false} AppendNewFacts<T>(xs: seq<T>, ys: seq<T>, key: T -> string)
    ensures xs <= AppendNew(xs, ys, key)
    ensures KeysOf(AppendNew(xs, ys, key), key) == KeysOf(xs, key) + KeysOf(ys, key)
    ensures forall i :: |xs| <= i < |AppendNew(xs, ys, key)| ==>
              AppendNew(xs, ys, key)[i] in ys && key(AppendNew(xs, ys, key)[i]) !in KeysOf(xs, key)
    ensures UniqueKeys(xs, key) ==> UniqueKeys(AppendNew(xs, ys, key), key)
  {
    if ys != [] {
      var n := |ys| - 1;
      var front := AppendNew(xs, ys[..n], key);
      AppendNewFacts(xs, ys[..n], key);
      assert ys == ys[..n] + [ys[n]];
      KeysSnoc(ys[..n], ys[n], key);
      if key(ys[n]) !in KeysOf(front, key) {
        KeysSnoc(front, ys[n], key);
        var r := front + [ys[n]];
        assert forall i :: 0 <= i < |front| ==> r[i] == front[i];
        forall i | |xs| <= i < |r|
          ensures r[i] in ys && key(r[i]) !in KeysOf(xs, key)
        {
          if i < |front| {
            assert r[i] == front[i];
            assert front[i] in ys[..n];
          }
        }
        if UniqueKeys(xs, key) {
          forall i, j | 0 <= i < j < |r|
            ensures key(r[i]) != key(r[j])
          {
            if j == |front| {
              assert key(r[i]) in KeysOf(front, key);
            }
          }
        }
      } else {
        forall i | |xs| <= i < |front|
          ensures front[i] in ys
        {
          assert front[i] in ys[..n];
        }
      }
    }
  }

  /** `_enrich_orphan_methods`: the ids of method nodes that no HAS_METHOD relationship of the
    * result points to. */
  function OrphanIds(nodes: seq<GraphNode>, rels: seq<GraphRel>): set<string> {
    (set i | 0 <= i < |nodes| && "Method" in nodes[i].labels :: nodes[i].id)
    - (set i | 0 <= i < |rels| && rels[i].relType == "HAS_METHOD" :: rels[i].endNodeId)
  }

  /** An id is an orphan exactly when a method node carries it and no HAS_METHOD relationship
    * ends at it. */
  lemma OrphanMeaning(nodes: seq<GraphNode>, rels: seq<GraphRel>, id: string)
    ensures id in OrphanIds(nodes, rels) <==>
              (exists i :: 0 <= i < |nodes| && nodes[i].id == id && "Method" in nodes[i].labels)
              && (forall j :: 0 <= j < |rels| && rels[j].relType == "HAS_METHOD" ==> rels[j].endNodeId != id)
  {
    if id in OrphanIds(nodes, rels) {
      forall j | 0 <= j < |rels| && rels[j].relType == "HAS_METHOD"
        ensures rels[j].endNodeId != id
      {
      }
    }
  }

  /** What a parent query returns for a set of method ids: nodes and relationships. */
  type ParentFetch = set<string> -> (seq<GraphNode>, seq<GraphRel>)

  /** The result after enrichment: unchanged without orphans, otherwise with the fetched nodes and
    * relationships whose ids are new appended. */
  function Enriched(nodes: seq<GraphNode>, rels: seq<GraphRel>, fetch: ParentFetch): (seq<GraphNode>, seq<GraphRel>) {
    var orphans := OrphanIds(nodes, rels);
    if orphans == {} then (nodes, rels)
    else (AppendNew(nodes, fetch(orphans).0, NodeKey), AppendNew(rels, fetch(orphans).1, RelKey))
  }

  /** The result a query or expansion returned, updated in place by the enrichment. */
  class GraphData {
    var nodes: seq<GraphNode>
    var relationships: seq<GraphRel>

    constructor(nodes: seq<GraphNode>, relationships: seq<GraphRel>)
      ensures this.nodes == nodes && this.relationships == relationships
    {
      this.nodes := nodes;
      this.relationships := relationships;
    }

    /** `_enrich_orphan_methods`: without orphans nothing is queried and nothing changes;
      * otherwise the orphans' ids are queried once and the new nodes and relationships are
      * appended. */
    method EnrichOrphanMethods(fetch: ParentFetch) returns (queried: Option<set<string>>)
      modifies this
      ensures queried == (if OrphanIds(old(nodes), old(relationships)) == {} then None
                          else Some(OrphanIds(old(nodes), old(relationships))))
      ensures (nodes, relationships) == Enriched(old(nodes), old(relationships), fetch)
    {
      var orphans := OrphanIds(nodes, relationships);
      if orphans == {} {
        return None;
      }
      queried := Some(orphans);
      var (fetchedNodes, fetchedRels) := fetch(orphans);
      MergeNodes(fetchedNodes);
      MergeRelationships(fetchedRels);
    }

    /** The loop over the fetched nodes, tracking the ids present. */
    method MergeNodes(ys: seq<GraphNode>)
      modifies this
      ensures nodes == AppendNew(old(nodes), ys, NodeKey) && relationships == old(relationships)
    {
      var existing := set n | n in nodes :: n.id;
      assert existing == KeysOf(nodes, NodeKey) by {
        forall k | k in existing
          ensures k in KeysOf(nodes, NodeKey)
        {
          var n :| n in nodes && n.id == k;
          var i :| 0 <= i < |nodes| && nodes[i] == n;
        }
      }
      for i := 0 to |ys|
        invariant nodes == AppendNew(old(nodes), ys[..i], NodeKey) && relationships == old(relationships)
        invariant existing == KeysOf(nodes, NodeKey)
      {
        assert ys[..i + 1][..i] == ys[..i];
        var node := ys[i];
        if node.id !in existing {
          KeysSnoc(nodes, node, NodeKey);
          nodes := nodes + [node];
          existing := existing + {node.id};
        }
      }
      assert ys[..|ys|] == ys;
    }

    /** The loop over the fetched relationships, tracking the ids present. */
    method MergeRelationships(ys: seq<GraphRel>)
      modifies this
      ensures relationships == AppendNew(old(relationships), ys, RelKey) && nodes == old(nodes)
    {
      var existing := set r | r in relationships :: r.id;
      assert existing == KeysOf(relationships, RelKey) by {
        forall k | k in existing
          ensures k in KeysOf(relationships, RelKey)
        {
          var r :| r in relationships && r.id == k;
          var i :| 0 <= i < |relationships| && relationships[i] == r;
        }
      }
      for i := 0 to |ys|
        invariant relationships == AppendNew(old(relationships), ys[..i], RelKey) && nodes == old(nodes)
        invariant existing == KeysOf(relationships, RelKey)
      {
        assert ys[..i + 1][..i] == ys[..i];
        var rel := ys[i];
        if rel.id !in existing {
          KeysSnoc(relationships, rel, RelKey);
          relationships := relationships + [rel];
          existing := existing + {rel.id};
        }
      }
      assert ys[..|ys|] == ys;
    }
  }

  /** Enrichment keeps what the result held, in order, and adds no duplicate id. */
  lemma EnrichedKeeps(nodes: seq<GraphNode>, rels: seq<GraphRel>, fetch: ParentFetch)
    ensures nodes <= Enriched(nodes, rels, fetch).0 && rels <= Enriched(nodes, rels, fetch).1
    ensures UniqueKeys(nodes, NodeKey) ==> UniqueKeys(Enriched(nodes, rels, fetch).0, NodeKey)
    ensures UniqueKeys(rels, RelKey) ==> UniqueKeys(Enriched(nodes, rels, fetch).1, RelKey)
  {
    var orphans := OrphanIds(nodes, rels);
    if orphans != {} {
      AppendNewFacts(nodes, fetch(orphans).0, NodeKey);
      AppendNewFacts(rels, fetch(orphans).1, RelKey);
    }
  }

  // ---------------------------------------------------------------------------------------
  // execute_query
  // ---------------------------------------------------------------------------------------

  datatype QueryResponse = QueryResponse(cypher: string, nodes: seq<GraphNode>, relationships: seq<GraphRel>, error: Option<string>)

  /** The AI's reply for a provider, or the text of the exception its call raised. */
  type Ask = Provider -> Result<string, string>

  /** A Cypher read: the result, or the text of the exception it raised. */
  type CypherRead = string -> Result<(seq<GraphNode>, seq<GraphRel>), string>

  const Locked := HttpError(403, "App is locked")
  const GenerationFailed := "AI query generation failed: "

  /** Steps up to the generated query: the lock, the provider, the AI call and the fence removal
    * (a fenced reply with no line break raises inside the guarded block). */
  function Generate(unlocked: bool, cfg: Config, ask: Ask): (r: Result<string, HttpError>)
    ensures !unlocked ==> r == Err(Locked)
    ensures unlocked && cfg.providers == [] ==> r == Err(HttpError(400, "No AI provider configured"))
  {
    if !unlocked then Err(Locked)
    else
      match FindQueryProvider(cfg)
      case Err(e) => Err(e)
      case Ok(p) =>
        match ask(p)
        case Err(e) => Err(HttpError(500, GenerationFailed + e))
        case Ok(reply) =>
          match StripFences(reply)
          case None => Err(HttpError(500, GenerationFailed + "list index out of range"))
          case Some(cypher) => Ok(cypher)
  }

  /** `execute_query` as a whole. */
  function Answer(unlocked: bool, cfg: Config, ask: Ask, run: CypherRead, fetch: ParentFetch): Result<QueryResponse, HttpError> {
    match Generate(unlocked, cfg, ask)
    case Err(e) => Err(e)
    case Ok(cypher) =>
      var (safe, message) := ValidateReadOnly(cypher);
      if !safe then Ok(QueryResponse(cypher, [], [], Some(message)))
      else
        match run(cypher)
        case Err(e) => Ok(QueryResponse(cypher, [], [], Some("Cypher execution failed: " + e)))
        case Ok((ns, rs)) =>
          var (ns2, rs2) := Enriched(ns, rs, fetch);
          Ok(QueryResponse(cypher, ns2, rs2, None))
  }

  /** A generated query that is not read-only comes back with its error and no results, and is
    * never run: the answer is the same whatever the database would return. */
  lemma UnsafeNotRun(unlocked: bool, cfg: Config, ask: Ask, run1: CypherRead, fetch1: ParentFetch,
                     run2: CypherRead, fetch2: ParentFetch)
    requires Generate(unlocked, cfg, ask).Ok?
    requires !ValidateReadOnly(Generate(unlocked, cfg, ask).value).0
    ensures var cypher := Generate(unlocked, cfg, ask).value;
            && Answer(unlocked, cfg, ask, run1, fetch1) == Ok(QueryResponse(cypher, [], [], Some(ValidateReadOnly(cypher).1)))
            && Answer(unlocked, cfg, ask, run2, fetch2) == Answer(unlocked, cfg, ask, run1, fetch1)
  {
  }

  /** `execute_query`: the lock is read from the session. */
  method ExecuteQuery(session: SessionStore, cfg: Config, ask: Ask, run: CypherRead, fetch: ParentFetch)
    returns (r: Result<QueryResponse, HttpError>)
    ensures r == Answer(session.IsUnlocked(), cfg, ask, run, fetch)
  {
    var generated := Generate(session.IsUnlocked(), cfg, ask);
    if generated.Err? {
      return Err(generated.error);
    }
    var cypher := generated.value;
    var (safe, message) := ValidateReadOnly(cypher);
    if !safe {
      return Ok(QueryResponse(cypher, [], [], Some(message)));
    }
    var result := run(cypher);
    if result.Err? {
      return Ok(QueryResponse(cypher, [], [], Some("Cypher execution failed: " + result.error)));
    }
    var graph := new GraphData(result.value.0, result.value.1);
    var _ := graph.EnrichOrphanMethods(fetch);
    r := Ok(QueryResponse(cypher, graph.nodes, graph.relationships, None));
  }

  // ---------------------------------------------------------------------------------------
  // expand_node
  // ---------------------------------------------------------------------------------------

  /** The names of the expansion templates, in the order they are listed. */
  const ExpandOperations := [
    "downstream_calls", "upstream_calls", "show_methods", "class_downstream", "class_upstream",
    "show_imports", "show_imported_by", "show_rest_endpoints", "show_rest_implementation",
    "show_jms_listeners", "show_jms_destination", "show_jms_producers", "show_scheduled_tasks",
    "show_feign_endpoints", "show_feign_implementation", "show_http_clients", "show_repository",
    "show_repository_implementation", "show_microservice", "show_node", "show_java_node",
    "show_arch_node", "arch_downstream", "arch_upstream"]

  /** The depth a template is filled with: the requested one, at most 5. */
  function ExpandDepth(depth: int): (d: int)
    ensures d <= 5 && d <= depth
    ensures d == depth || d == 5
  {
    if depth < 5 then depth else 5
  }

  function UnknownOperation(op: string): HttpError {
    HttpError(400, "Unknown operation: " + op + ". Valid: " + Join(", ", ExpandOperations))
  }

  /** A template filled with a depth gives the Cypher text (the texts are not modelled). */
  type Render = (string, int) -> string

  /** The replacement fields `str.format` finds in each template, by operation. */
  type TemplateFields = string -> set<string>

  /** The fields of the templates as written: `{depth}` in the four variable-length CALLS
    * templates, and in `show_imports` the Cypher map `{full_name: imp_fqn}`, which `str.format`
    * reads as a field named `full_name`. The other templates have no braces. */
  function WrittenFields(op: string): set<string> {
    if op in {"downstream_calls", "upstream_calls", "class_downstream", "class_upstream"} then {"depth"}
    else if op == "show_imports" then {"full_name"}
    else {}
  }

  /** The fields once the `show_imports` map is written with doubled braces,
    * `{{full_name: imp_fqn}}`, which `str.format` turns into the single-brace map. */
  function CorrectedFields(op: string): set<string> {
    if op in {"downstream_calls", "upstream_calls", "class_downstream", "class_upstream"} then {"depth"} else {}
  }

  /** `template.format(depth=depth)` succeeds exactly when `depth` is the only field it can be
    * asked to fill; any other field raises `KeyError` outside every `try`, which the server
    * answers with a 500. */
  predicate Fillable(fields: set<string>) {
    fields <= {"depth"}
  }

  const InternalError := HttpError(500, "Internal Server Error")

  /** A Cypher read with the node id as parameter. */
  type NodeRead = (string, string) -> Result<(seq<GraphNode>, seq<GraphRel>), string>

  /** `expand_node` as a whole, with the templates' fields given. */
  function ExpandAnswer(fields: TemplateFields, unlocked: bool, op: string, nodeId: string, depth: int,
                        render: Render, run: NodeRead, fetch: ParentFetch): Result<QueryResponse, HttpError> {
    if !unlocked then Err(Locked)
    else if op !in ExpandOperations then Err(UnknownOperation(op))
    else if !Fillable(fields(op)) then Err(InternalError)
    else
      var cypher := render(op, ExpandDepth(depth));
      match run(cypher, nodeId)
      case Err(e) => Ok(QueryResponse(cypher, [], [], Some("Expansion failed: " + e)))
      case Ok((ns, rs)) =>
        var (ns2, rs2) := Enriched(ns, rs, fetch);
        Ok(QueryResponse(cypher, ns2, rs2, None))
  }

  /** An unknown operation is refused with 400 before any query; a known one whose template
    * fills is rendered with a depth of at most 5, whatever depth was asked for; a known one whose
    * template has another field is a 500 before any query. */
  lemma ExpandGate(fields: TemplateFields, unlocked: bool, op: string, nodeId: string, depth: int,
                   render: Render, run: NodeRead, fetch: ParentFetch)
    requires unlocked
    ensures op !in ExpandOperations ==> ExpandAnswer(fields, unlocked, op, nodeId, depth, render, run, fetch) == Err(UnknownOperation(op))
    ensures op in ExpandOperations && !Fillable(fields(op)) ==>
              ExpandAnswer(fields, unlocked, op, nodeId, depth, render, run, fetch) == Err(InternalError)
    ensures op in ExpandOperations && Fillable(fields(op)) ==>
              var a := ExpandAnswer(fields, unlocked, op, nodeId, depth, render, run, fetch);
              a.Ok? && exists d :: d <= 5 && a.value.cypher == render(op, d) && (depth <= 5 ==> d == depth)
  {
    if op in ExpandOperations && Fillable(fields(op)) {
      var d := ExpandDepth(depth);
      assert ExpandAnswer(fields, unlocked, op, nodeId, depth, render, run, fetch).value.cypher == render(op, d);
    }
  }

  /** As written, `show_imports` is the one known operation whose template does not fill: every
    * unlocked request for it is a 500, whatever the node, depth and graph. */
  lemma ShowImportsFails(nodeId: string, depth: int, render: Render, run: NodeRead, fetch: ParentFetch)
    ensures forall op :: op in ExpandOperations ==> (Fillable(WrittenFields(op)) <==> op != "show_imports")
    ensures ExpandAnswer(WrittenFields, true, "show_imports", nodeId, depth, render, run, fetch) == Err(InternalError)
  {
    assert "show_imports" in ExpandOperations;
    assert "full_name" in WrittenFields("show_imports");
  }

  /** With the doubled braces every known operation fills, so every unlocked request for a known
    * operation answers with its rendered query (or the read's reported failure). */
  lemma CorrectedExpandsAll(nodeId: string, depth: int, render: Render, run: NodeRead, fetch: ParentFetch)
    ensures forall op :: op in ExpandOperations ==> Fillable(CorrectedFields(op))
    ensures forall op :: op in ExpandOperations ==> ExpandAnswer(CorrectedFields, true, op, nodeId, depth, render, run, fetch).Ok?
    ensures forall op :: op != "show_imports" ==> CorrectedFields(op) == WrittenFields(op)
  {
  }

  /** `expand_node`: the lock is read from the session. */
  method ExpandNode(session: SessionStore, op: string, nodeId: string, depth: int,
                    render: Render, run: NodeRead, fetch: ParentFetch)
    returns (r: Result<QueryResponse, HttpError>)
    ensures r == ExpandAnswer(WrittenFields, session.IsUnlocked(), op, nodeId, depth, render, run, fetch)
  {
    if !session.IsUnlocked() {
      return Err(Locked);
    }
    if op !in ExpandOperations {
      return Err(UnknownOperation(op));
    }
    if !Fillable(WrittenFields(op)) {
      return Err(InternalError);
    }
    var cypher := render(op, ExpandDepth(depth));
    var result := run(cypher, nodeId);
    if result.Err? {
      return Ok(QueryResponse(cypher, [], [], Some("Expansion failed: " + result.error)));
    }
    var graph := new GraphData(result.value.0, result.value.1);
    var _ := graph.EnrichOrphanMethods(fetch);
    r := Ok(QueryResponse(cypher, graph.nodes, graph.relationships, None));
  }
}
