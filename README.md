# Roadmap analysis core in Dafny

This project models the core of the "roadmap" system in Dafny and proves properties of the model.
The system reads a body of Java source code and builds a code metamodel in a property graph:
packages, types, methods, annotations and call edges. Over that it lays an architecture overlay:
REST interfaces and endpoints, Feign clients, JMS destinations, listeners and producers,
scheduled tasks, Spring Data repositories and HTTP clients. Around that graph sit a context
store, a renderer for an MCP server, and the web routes that browse and query the graph.

What is modelled, module by module:

- **Java analysis** (`java_extract`, `call_resolver`, `java_run`): the extractor's pure
  helpers. These are visibility from modifiers, full names of nested types, generic stripping,
  and the import lists and import map. The call resolver covers annotation FQNs, the
  breadth-first owner search up the in-module hierarchy, and the creation of CALLS edges with
  synthesized stub methods. Also the statistics and error counting of a run. A raising parse or
  a raising package, class or method node write ends its file's iteration, and counts as a
  parse error.
- **Enrichers** (`enricher_base`, `metamodel`, `spring_web`, `feign_client`, `spring_jms`,
  `spring_data`, `spring_scheduled`, `rest_client`, `node_writes`, `graph_records`): annotation
  lookup, stored-JSON decoding, the path and HTTP-method resolution of Spring Web and Feign,
  JMS destinations and send-call scanning, repository classification, `@Scheduled` defaults, the
  two passes of the REST-client enricher, and the statistics each one reports. A graph write is
  an output, and its failure is an input set of the writes that raise.
- **Technology scanner** (`technology_scanner`): the import, annotation and supertype scans
  and the sorted union `detect` returns.
- **Context store** (`context_model`, `context_items`, `context_mixins`, `context_store`,
  `reachability`): context files and their child contexts, the parent placeholder, mixin
  references, the cycle check, and the item and child routes. A `Contexts` class holds the
  directory of context files as a map that its methods reassign.
- **MCP rendering** (`mcp_render`): the expansion of a context with its mixins, guarded by a
  visited set, the rendering of every item type, and the `get_context` text.
- **Confluence, functional documentation and AI configuration** (`confluence`,
  `functional_doc`, `fences`, `ai_config`): the page tree, space lookup, wiki prefix and
  parent ids; page-id collection, provider choice, truncation, fence stripping and the
  near-empty-page rule.
- **Browse and query** (`browse`, `query`): level detection, virtual category ids and their
  parsing, the JMS merge for a microservice, the search guard, the depth clamp, orphan-method
  enrichment and the read-only gate of a generated query.
- **Job store, session and Cypher validator** (`job_store`, `session`, `cypher_validator`):
  the in-memory job table and its updates, the session key, and the read-only check of a
  Cypher query.

`wrappers`, `strs` and `seqs` hold the shared `Option`/`Result` types, ASCII string
helpers and sequence lemmas. `sorting` holds Python's order on strings and the `sorted` of a set of strings.

## Model

| member | source | states |
|---|---|---|
| EnricherBase.ParseJson | backend/app/analyzers/enrichers/base.py:7-14 | a null or empty stored value and one that does not decode give `[]`; otherwise the decoded list |
| EnricherBase.GetAnnotation | backend/app/analyzers/enrichers/base.py:17-22 | none exactly when no annotation's name is asked for; otherwise the first annotation in list order whose name is |
| Metamodel.FirstText | backend/app/analyzers/enrichers/spring_web.py:52-59 | a non-empty list argument gives its first element, a text gives itself, a falsy value gives "" |
| GraphRecords.LoadMethods | backend/app/analyzers/enrichers/spring_web.py:233-241 | the method rows that have a name, decoded, and no others; never more records than rows |
| NodeWrites.WriteAll | backend/app/analyzers/enrichers/spring_data.py:44-83 | the loop writes exactly the `Written` nodes (a row's node unless its write fails) and counts one per successful write |
| NodeWrites.WrittenMembers | backend/app/analyzers/enrichers/spring_data.py:65-83 | a node is written exactly when some row yields it and that row's write does not fail; never more nodes than rows |
| NodeWrites.WrittenCount | backend/app/analyzers/enrichers/spring_data.py:65-83 | a failing write only loses nodes; without failures one node per row that yields one |
| RestClient.ClientTypeNaming | backend/app/analyzers/enrichers/rest_client.py:4-8 | each client type's class is its package plus its own simple name |
| RestClient.ClientOf | backend/app/analyzers/enrichers/rest_client.py:30-42 | a row gets a client node of type `t` exactly when it imports the class or star-imports the package; the node carries the class name, the type name and the class |
| RestClient.BothTypes | backend/app/analyzers/enrichers/rest_client.py:16-21 | a class using both libraries gets two different nodes, one per type |
| RestClient.ProcessClient | backend/app/analyzers/enrichers/rest_client.py:27-64 | the nodes written are exactly the using classes' nodes whose write succeeds, all of this pass's type; the count is the number written, and without failures every using class |
| RestClient.PassesInOrder | backend/app/analyzers/enrichers/rest_client.py:18-21 | the RestTemplate pass's nodes followed by the WebClient pass's leave no RestTemplate node after a WebClient one |
| RestClient.EnrichFromGraph | backend/app/analyzers/enrichers/rest_client.py:16-25 | `http_clients` counts the nodes written; RestTemplate nodes precede WebClient ones; a node is written exactly when a using class's write of that type succeeds; without failures the count is the sum of both passes' using classes |
| SpringScheduled.PyStr | backend/app/analyzers/enrichers/spring_scheduled.py:57-61 | `str()` of a list argument is its bracketed display |
| SpringScheduled.ArgStrAgreesWithText | backend/app/analyzers/enrichers/spring_scheduled.py:57-61 | an absent scheduling argument becomes "", a text argument stays as it is, a list argument is shown whole starting with `[` |
| SpringScheduled.TaskIffAnnotated | backend/app/analyzers/enrichers/spring_scheduled.py:27-37 | a method gets a task exactly when one of its annotations is `@Scheduled`; the arguments come from the first such annotation |
| SpringScheduled.EnrichFromGraph | backend/app/analyzers/enrichers/spring_scheduled.py:12-70 | the tasks written are exactly the scheduled methods' tasks whose write succeeds; `scheduled_tasks` counts them, and without failures every scheduled method |
| SpringData.RepoTablesAgree | backend/app/analyzers/enrichers/spring_data.py:6-20 | the kinds table and the pattern's alternatives name the same bases, each mapped to one of the six repository kinds |
| SpringData.RepoType | backend/app/analyzers/enrichers/spring_data.py:45-52 | none exactly when no supertype is a repository base; otherwise the kind of the first supertype that is |
| SpringData.SpaceEnd | backend/app/analyzers/enrichers/spring_data.py:17-20 | the greedy end of a `\s*` run |
| SpringData.WordEnd | backend/app/analyzers/enrichers/spring_data.py:17-20 | the greedy end of a `\w*` run |
| SpringData.RepoNameEnd | backend/app/analyzers/enrichers/spring_data.py:17-20 | some base name occurs at `i` exactly when an end is returned, and the end is that name's |
| SpringData.EntityAt | backend/app/analyzers/enrichers/spring_data.py:17-20 | a match at `i` starts with `extends` or `implements` and captures a non-empty run of word characters |
| SpringData.SearchFrom | backend/app/analyzers/enrichers/spring_data.py:57-59 | `re.search`: none exactly when no position matches; otherwise the capture at the leftmost matching position |
| SpringData.EntityType | backend/app/analyzers/enrichers/spring_data.py:54-59 | the entity type is made of word characters; it is "" exactly when the source has no match, else the capture of the first match |
| SpringData.RepositoryIff | backend/app/analyzers/enrichers/spring_data.py:36-52 | an interface row is a repository exactly when one of its supertypes is a repository base, with the kind of the first such supertype |
| SpringData.EnrichFromGraph | backend/app/analyzers/enrichers/spring_data.py:28-87 | the nodes written are exactly the repository rows' nodes whose write succeeds; `repositories` counts them, and without failures every repository row |
| SpringWeb.RequestMethod | backend/app/analyzers/enrichers/spring_web.py:18-31 | a known `RequestMethod` value, qualified or not, names one of the seven HTTP verbs |
| SpringWeb.GetPath | backend/app/analyzers/enrichers/spring_web.py:52-59 | no annotation or no arguments gives ""; otherwise a truthy `value`, else a truthy `path`, as text (a list gives its first element), else "" |
| SpringWeb.JoinPaths | backend/app/analyzers/enrichers/spring_web.py:62-71 | the joined path is never empty |
| SpringWeb.JoinPathsExamples | backend/app/analyzers/enrichers/spring_web.py:65-71 | both empty gives "/", an empty method path gives the base, an empty base gives "/" plus the method path, and a trailing slash on the base is dropped |
| SpringWeb.JoinPathsSeam | backend/app/analyzers/enrichers/spring_web.py:62-71 | when both trimmed parts are non-empty the result is base, one slash, method path, with no slash doubled at the seam |
| SpringWeb.JoinPathsIgnoresExtraSlashes | backend/app/analyzers/enrichers/spring_web.py:63-64 | an extra trailing slash on the base or leading slash on the method path does not change the result |
| SpringWeb.ResolveHttpMethod | backend/app/analyzers/enrichers/spring_web.py:74-85 | a verb is found only when the mapping has arguments and a truthy `method`, and it is the table's value for its (first) text, always one of the HTTP verbs |
| SpringWeb.AddMediaTypes | backend/app/analyzers/enrichers/spring_web.py:381-391 | path and verb are unchanged; `produces` and `consumes` are replaced only by a truthy argument of that name, a list joined with ", " |
| SpringWeb.VerbIndex | backend/app/analyzers/enrichers/spring_web.py:363-369 | the first verb-specific mapping of the table, in table order, that the annotations carry; none exactly when they carry none |
| SpringWeb.EndpointIffMapping | backend/app/analyzers/enrichers/spring_web.py:361-379 | a method has an endpoint exactly when it carries some mapping annotation (`_has_any_mapping`); its verb is an HTTP verb and its path is not empty |
| SpringWeb.VerbIndexAt | backend/app/analyzers/enrichers/spring_web.py:363-369 | the table search stops at the first verb mapping present |
| SpringWeb.NoVerbIndex | backend/app/analyzers/enrichers/spring_web.py:363-369 | with no verb-specific mapping present the table search finds nothing |
| SpringWeb.EndpointVerbPrecedence | backend/app/analyzers/enrichers/spring_web.py:363-369 | with the `k`-th verb mapping present and none before it in the table, the endpoint has that verb and that mapping's path under the base |
| SpringWeb.EndpointGenericDefaultsToGet | backend/app/analyzers/enrichers/spring_web.py:371-377 | without a verb-specific mapping the generic request mapping decides: its own verb, or GET |
| SpringWeb.LoadControllers | backend/app/analyzers/enrichers/spring_web.py:205-250 | exactly the classes with a controller annotation, decoded; never more than the rows |
| SpringWeb.BaseMappingOrder | backend/app/analyzers/enrichers/spring_web.py:107-119 | the class's own request mapping wins; otherwise the first resolved supertype that has one; none exactly when none has one |
| SpringWeb.ClassMapping | backend/app/analyzers/enrichers/spring_web.py:107-118 | the loop over the supertypes, stopping at the first mapping, computes `BaseMapping` |
| SpringWeb.LastMapped | backend/app/analyzers/enrichers/spring_web.py:349-357 | the last method of a name that carries a mapping; none exactly when no method of that name does |
| SpringWeb.MappedMethodLastWins | backend/app/analyzers/enrichers/spring_web.py:349-357 | a name is in the interface method map exactly when some supertype method of that name has a mapping, and the last such method's annotations win |
| SpringWeb.AddMappedMethods | backend/app/analyzers/enrichers/spring_web.py:353-356 | the inner loop extends the map exactly as the specification of the whole list prescribes |
| SpringWeb.BuildIfaceMethodMap | backend/app/analyzers/enrichers/spring_web.py:349-357 | the loop over supertypes and their methods builds the map of the concatenated method lists |
| SpringWeb.MethodEndpoint | backend/app/analyzers/enrichers/spring_web.py:150-161 | a method's own endpoint if it has one, else the endpoint of the same-named supertype method, else none |
| SpringWeb.InheritedOnlyWithoutOwnMapping | backend/app/analyzers/enrichers/spring_web.py:155-158 | a method with a mapping of its own never takes the supertype's |
| SpringWeb.WriteEndpoints | backend/app/analyzers/enrichers/spring_web.py:150-196 | every endpoint written is one of the controller's methods' endpoints whose write succeeded, and every such endpoint is written; never more than the methods |
| SpringWeb.EnrichController | backend/app/analyzers/enrichers/spring_web.py:104-196 | one controller iteration keeps the loop invariant: count, interface written unless it fails, endpoints only under a written interface |
| SpringWeb.EnrichFromGraph | backend/app/analyzers/enrichers/spring_web.py:95-201 | every controller is counted; its interface is written exactly when its write does not fail; endpoints are written only under a written interface, for methods with an endpoint whose write succeeds, and all such are written; `endpoints` counts them |
| FeignClient.FeignRequestMethod | backend/app/analyzers/enrichers/feign_client.py:21-27 | a known value names one of the five verbs this enricher knows |
| FeignClient.FeignTableIsWebTableWithoutHeadOptions | backend/app/analyzers/enrichers/feign_client.py:21-27 | the Feign verb table is the Spring Web one without HEAD and OPTIONS |
| FeignClient.FeignHttpMethod | backend/app/analyzers/enrichers/feign_client.py:211-217 | the generic mapping's verb is always one of the five, GET by default |
| FeignClient.FeignVerbMatchesWeb | backend/app/analyzers/enrichers/feign_client.py:211-217 | the generic mapping's verb equals the Spring Web enricher's, except that HEAD and OPTIONS fall back to GET |
| FeignClient.FeignEndpointMatchesWeb | backend/app/analyzers/enrichers/feign_client.py:198-220 | a Feign method has an endpoint exactly when a Spring Web method with the same annotations would, at the same path, with the same verb up to HEAD and OPTIONS becoming GET |
| FeignClient.ClientNaming | backend/app/analyzers/enrichers/feign_client.py:66-85 | only classes with `@FeignClient` get a node; a truthy `name`, else `value`, is both client name and service id (first element of a list); otherwise the class name and an empty service id |
| FeignClient.LoadFeignClients | backend/app/analyzers/enrichers/feign_client.py:156-196 | exactly the classes carrying `@FeignClient`, decoded; never more than the rows |
| FeignClient.WriteClientEndpoints | backend/app/analyzers/enrichers/feign_client.py:115-149 | every endpoint written belongs to one of the client's methods and its write succeeded, and every such endpoint is written |
| FeignClient.EnrichClient | backend/app/analyzers/enrichers/feign_client.py:65-149 | one iteration keeps the loop invariant: a class without the annotation or whose write fails adds nothing; the counts match what was written |
| FeignClient.EnrichClients | backend/app/analyzers/enrichers/feign_client.py:65-154 | a client is written exactly when its write does not fail; endpoints only under a written client, exactly those whose write succeeds; the counts are the numbers written |
| FeignClient.EnrichFromGraph | backend/app/analyzers/enrichers/feign_client.py:57-154 | every loaded client gets a node, written exactly when its write does not fail; every endpoint written comes from a method of a written client and carries that method's resolved endpoint; every resolvable method of a written client whose write does not fail is written; `clients` and `endpoints` count the writes that succeeded |
| SpringJms.StripCharEnds | backend/app/analyzers/enrichers/spring_jms.py:63 | what `strip(c)` leaves neither starts nor ends with `c`; text without `c` is kept |
| SpringJms.DestinationUnquoted | backend/app/analyzers/enrichers/spring_jms.py:60-63 | a listener destination never starts or ends with a single quote, and a destination without quotes is kept as given |
| SpringJms.SkipSpaces | backend/app/analyzers/enrichers/spring_jms.py:146 | the greedy end of a `\s*` run |
| SpringJms.CallOpenAt | backend/app/analyzers/enrichers/spring_jms.py:151 | a match of `\.m\s*\(` at `i` is a dot, the method name, spaces and an opening parenthesis |
| SpringJms.LiteralAt | backend/app/analyzers/enrichers/spring_jms.py:146-147 | a match of the literal pattern at `i` is a call match whose captured text has no double quote |
| SpringJms.FindAllSound | backend/app/analyzers/enrichers/spring_jms.py:146-147 | every text `findall` returns has no double quote, and when it returns any the source calls the method at or after the start |
| SpringJms.LiteralsUpToMembers | backend/app/analyzers/enrichers/spring_jms.py:144-150 | the destinations collected over the send methods are exactly those one of them yields |
| SpringJms.LiteralMeansCall | backend/app/analyzers/enrichers/spring_jms.py:147-152 | a method with a literal destination is called |
| SpringJms.CallsUpToFacts | backend/app/analyzers/enrichers/spring_jms.py:144-152 | `has_send_calls` holds exactly when one of the send methods is called, and literals imply it |
| SpringJms.LiteralsNeedSendCall | backend/app/analyzers/enrichers/spring_jms.py:144-155 | a source with literal destinations counts as sending; no destination contains a double quote |
| SpringJms.EmptyLiteralExample | backend/app/analyzers/enrichers/spring_jms.py:146-150 | `send("")` yields the empty destination, which the producer loop merges (only listeners skip "") |
| SpringJms.ScanSource | backend/app/analyzers/enrichers/spring_jms.py:140-152 | the scan loop computes exactly the literal destinations and whether some send method is called |
| SpringJms.MergeDestination | backend/app/analyzers/enrichers/spring_jms.py:75-78 | a new destination is merged, marked seen and counted exactly when its write succeeds; a failure changes nothing |
| SpringJms.ListenerIffAnnotated | backend/app/analyzers/enrichers/spring_jms.py:49-57 | a method is a listener exactly when one of its annotations is `@JmsListener` |
| SpringJms.ListenersOfMembers | backend/app/analyzers/enrichers/spring_jms.py:49-67 | a node is among the listener nodes exactly when some row yields it |
| SpringJms.ListenerStepSound | backend/app/analyzers/enrichers/spring_jms.py:74-113 | a listener step writes only nodes, edges and destinations that come from the rows |
| SpringJms.ListenerStepComplete | backend/app/analyzers/enrichers/spring_jms.py:74-113 | without failures a listener step writes its row's listener, edge and destination |
| SpringJms.ListenEdgesStep | backend/app/analyzers/enrichers/spring_jms.py:98-113 | adding the LISTENS_ON edge of a counted row with a non-empty destination, and no other, keeps "every such row has its edge and every edge is such a row's" |
| SpringJms.ListenerStepExact | backend/app/analyzers/enrichers/spring_jms.py:74-113 | a listener step extends the row-by-row written/counted/linked/seen facts by its row and never makes a destination whose merge raises seen |
| SpringJms.ProcessListener | backend/app/analyzers/enrichers/spring_jms.py:49-116 | one row fixes the whole new state: its non-empty destination is merged exactly when not seen and its merge does not raise; the node is written exactly when the merge (if any) and the node write succeed; the LISTENS_ON edge and the count are added exactly when, in addition, the edge write (for a non-empty destination) succeeds |
| SpringJms.ProcessListeners | backend/app/analyzers/enrichers/spring_jms.py:34-116 | everything written comes from the rows; merged destinations are listeners'; no seen destination's merge raises; row by row, whatever fails, exactly the rows whose writes succeed are written, counted and linked, and every non-empty destination whose merge does not raise is seen; without failures every listener is written |
| SpringJms.ProducerOf | backend/app/analyzers/enrichers/spring_jms.py:123-155 | a class is a producer exactly when it imports JmsTemplate (or star-imports its package) and calls a send method |
| SpringJms.LiteralMakesProducer | backend/app/analyzers/enrichers/spring_jms.py:144-155 | a candidate class with a literal destination is a producer |
| SpringJms.SendTo | backend/app/analyzers/enrichers/spring_jms.py:176-192 | one destination: merged exactly when not seen and its merge does not raise; its SENDS_TO edge written, and `ok`, exactly when it is seen or merges and its edge write does not raise |
| SpringJms.SendToAll | backend/app/analyzers/enrichers/spring_jms.py:175-192 | the loop succeeds exactly when every destination is seen or merges without raising and its SENDS_TO write does not raise, and then every destination is seen and linked; it adds only these destinations and edges, and leaves the listener side untouched |
| SpringJms.ProcessProducer | backend/app/analyzers/enrichers/spring_jms.py:139-197 | one class row: skipped without send calls; its node is written exactly when its node write does not raise; it is counted exactly when, in addition, each literal destination is seen or merges and is linked without raising, and then all of them are seen and linked; only its own literal destinations whose merge does not raise are added to what is seen |
| SpringJms.ProducerStepSound | backend/app/analyzers/enrichers/spring_jms.py:139-197 | a producer step writes only producers and links that come from the rows |
| SpringJms.ProducerStepMerged | backend/app/analyzers/enrichers/spring_jms.py:175-179 | a producer step merges only destinations of its own producer |
| SpringJms.ProducerStepLinks | backend/app/analyzers/enrichers/spring_jms.py:175-192 | links already made stay made |
| SpringJms.ProducerStepComplete | backend/app/analyzers/enrichers/spring_jms.py:139-197 | without failures a producer step writes its producer and links all its destinations |
| SpringJms.ProducerStepExact | backend/app/analyzers/enrichers/spring_jms.py:162-197 | a producer step extends the row-by-row written/counted/linked facts by its row and never makes a destination whose merge raises seen |
| SpringJms.ProducerPhaseStep | backend/app/analyzers/enrichers/spring_jms.py:139-197 | one step of the producer loop keeps its soundness, merge-origin, per-row and no-failure invariants |
| SpringJms.ListenersKept | backend/app/analyzers/enrichers/spring_jms.py:23-24 | the producer phase leaves the listener side as it was, so the listeners' soundness, completeness and per-row facts stay true |
| SpringJms.ProcessProducers | backend/app/analyzers/enrichers/spring_jms.py:120-197 | the producer loop keeps the listeners and adds only producers' destinations; row by row, whatever fails, exactly the producers whose node write succeeds are written, exactly those whose writes all succeed are counted, and each counted producer has all its destinations seen and linked; without failures every producer is written with its links |
| SpringJms.SeenComplete | backend/app/analyzers/enrichers/spring_jms.py:19-24 | without failures every listener and producer destination is seen |
| SpringJms.PhasesJoin | backend/app/analyzers/enrichers/spring_jms.py:23-24 | the listeners' merges come before the producers' |
| SpringJms.PhasesSound | backend/app/analyzers/enrichers/spring_jms.py:21-24 | every destination seen is a listener's or a producer's |
| SpringJms.EnrichFromGraph | backend/app/analyzers/enrichers/spring_jms.py:19-30 | `destinations` counts each destination once; listeners' destinations are merged before producers'; every write comes from the rows; no seen destination's merge raises; the per-row facts of both phases hold over the whole run, whatever fails; without failures the seen destinations are exactly the listeners' non-empty and the producers' literal ones |
| TechnologyScanner.SupertypeTableVersusRepositories | backend/app/analyzers/technology_scanner.py:27-35 | every supertype signal is a Spring Data repository base; `RedisRepository` is a repository base but not a supertype signal |
| TechnologyScanner.StarTagsExamples | backend/app/analyzers/technology_scanner.py:85-89 | a star import of a package above a signal prefix and of one below it both detect the technology |
| TechnologyScanner.ScanImports | backend/app/analyzers/technology_scanner.py:69-90 | the loops detect exactly the union of the rows' import technologies |
| TechnologyScanner.ScanAnnotations | backend/app/analyzers/technology_scanner.py:92-119 | the loops detect exactly the union of the rows' class and method annotation technologies |
| TechnologyScanner.ScanSupertypes | backend/app/analyzers/technology_scanner.py:121-140 | the loops detect exactly the union of the rows' supertype technologies |
| TechnologyScanner.ImportRowMeaning | backend/app/analyzers/technology_scanner.py:80-89 | a technology comes from a row's imports exactly when an explicit import starts with its prefix, or a star import is a package above or below the prefix |
| TechnologyScanner.ImportScanMeaning | backend/app/analyzers/technology_scanner.py:80-89 | a technology is detected from the imports exactly when it comes from one row |
| TechnologyScanner.AnnotationRowMeaning | backend/app/analyzers/technology_scanner.py:105-118 | a technology comes from a row's annotations exactly when a decodable class or method annotation list holds an annotation whose full name is its signal |
| TechnologyScanner.SupertypeRowMeaning | backend/app/analyzers/technology_scanner.py:132-139 | a technology comes from a row's supertypes exactly when one supertype's simple name is its signal |
| TechnologyScanner.Detect | backend/app/analyzers/technology_scanner.py:50-62 | the result is strictly ascending (sorted, no duplicates) and holds exactly the technologies one of the three scans detects |
| TechnologyScanner.DetectedKeysKnown | backend/app/analyzers/technology_scanner.py:6-35 | every technology detected is one of the tables' technology keys |
| Sorting.LexIrreflexive | backend/app/analyzers/technology_scanner.py:58 | the string order that `sorted` uses is irreflexive |
| Sorting.LexTransitive | backend/app/analyzers/technology_scanner.py:58 | the string order is transitive |
| Sorting.LexTotal | backend/app/analyzers/technology_scanner.py:58 | of two different strings one is below the other |
| Sorting.Insert | backend/app/analyzers/technology_scanner.py:58 | inserting into an ascending list keeps it ascending and adds exactly the new element |
| Sorting.SortSet | backend/app/analyzers/technology_scanner.py:58 | `sorted(set)`: an ascending list holding exactly the set's elements |
| Sorting.AscendingCard | backend/app/analyzers/technology_scanner.py:58 | an ascending list has as many entries as distinct elements |
| JavaExtract.Kinds | backend/app/analyzers/java_maven.py:177-197 | each import declaration is classified, one kind per declaration |
| JavaExtract.ExtractImports | backend/app/analyzers/java_maven.py:173-198 | the loop fills the import list, the on-demand list and the static-import map exactly as the per-declaration classification prescribes |
| JavaExtract.ImportBodyOf | backend/app/analyzers/java_maven.py:179-181 | `import t;` yields the body `t` |
| JavaExtract.StaticImportShape | backend/app/analyzers/java_maven.py:182-195 | `import static a.B.m;` is a static import of member `m` owned by `a.B` |
| JavaExtract.StaticSplit | backend/app/analyzers/java_maven.py:189-193 | a static import splits at its last dot into owner and member |
| JavaExtract.OnDemandShape | backend/app/analyzers/java_maven.py:185-186 | `import a.b.*;` and `import static a.b.*;` only add `a.b` to the on-demand imports |
| JavaExtract.StaticsOfLastWins | backend/app/analyzers/java_maven.py:187-195 | the static-import map holds exactly the members of static member imports, each bound to the owner of the last such import |
| JavaExtract.BuildImportMap | backend/app/analyzers/java_maven.py:357-366 | the loop builds the map from simple name (text after the last dot) to import |
| JavaExtract.LastNamed | backend/app/analyzers/java_maven.py:361-363 | the last import with a given simple name; none exactly when there is none |
| JavaExtract.ImportMapLastWins | backend/app/analyzers/java_maven.py:357-366 | a simple name is in the import map exactly when some import has it, and it maps to the last such import |
| JavaExtract.ResolveAnnotationFqns | backend/app/analyzers/java_maven.py:368-389 | same annotations in the same order with the same arguments; each name is the explicit import, else the first on-demand package, else the same package, else the bare name |
| JavaExtract.ResolveKeepsSimpleName | backend/app/analyzers/java_maven.py:368-389 | resolution only qualifies a name: the text after the last dot of the result is the annotation's simple name |
| JavaExtract.FlattenTypesQualified | backend/app/analyzers/java_maven.py:200-281 | in a named package every type's full name, at any nesting depth, starts with the package and a dot and ends with its simple name |
| JavaExtract.Visibility | backend/app/analyzers/java_maven.py:401-408 | the strongest access modifier present (public > protected > private); package-private exactly when none is present |
| JavaExtract.StripGenerics | backend/app/analyzers/java_maven.py:418-421 | the result has no `<`; it is the trimmed text before the first `<`, the whole trimmed text when there is none |
| JavaExtract.StripGenericsIdempotent | backend/app/analyzers/java_maven.py:419-421 | stripping generics twice changes nothing more |
| JavaRun.ParseErrorsCount | backend/app/analyzers/java_maven.py:91-96 | there are no parse errors exactly when no file's parse raised, and never more errors than files |
| JavaRun.MethodTotalAppend | backend/app/analyzers/java_maven.py:81-85 | the method count is additive over the class list |
| JavaRun.SummaryMentionsErrors | backend/app/analyzers/java_maven.py:103-108 | the summary ends with the parse-error clause exactly when there were parse errors |
| JavaRun.MethodsWritten | backend/app/analyzers/java_maven.py:80-84 | the methods loop writes the leading methods whose node write succeeds and stops at the first one that raises |
| JavaRun.MethodsWrittenRaises | backend/app/analyzers/java_maven.py:80-84 | the methods loop stops early exactly when one of the class's method writes raises |
| JavaRun.WriteClassesRaises | backend/app/analyzers/java_maven.py:74-84 | the class loop raises exactly when one of its class or method writes raises, and leaves the seen packages and the package and parse-error counters alone |
| JavaRun.WriteClassesCounts | backend/app/analyzers/java_maven.py:74-84 | the class counter moves with `all_classes`, and no more methods are counted than the appended classes hold |
| JavaRun.WriteClassesNoFailures | backend/app/analyzers/java_maven.py:74-84 | with no raising write the class loop appends every class and counts every class and method |
| JavaRun.FileStepRaises | backend/app/analyzers/java_maven.py:59-96 | a file adds one parse error exactly when its parse raises or one of the writes it asks for (a new package, its classes, their methods) raises |
| JavaRun.FileStepCounts | backend/app/analyzers/java_maven.py:65-84 | a file counts each class it hands to the resolver, no more methods than they hold, and no more packages than it adds to `packages_seen` (a raising package write leaves the package seen but uncounted) |
| JavaRun.FileStepNoFailures | backend/app/analyzers/java_maven.py:59-84 | with no raising write a file adds its non-empty package when new, and all its classes and methods |
| JavaRun.CountFile | backend/app/analyzers/java_maven.py:58-96 | one file, written out with its class and method loops and the early exit of a raising write, computes exactly the file step |
| JavaRun.RaisesAtPrefix | backend/app/analyzers/java_maven.py:58-96 | whether a file raised depends only on the files before it |
| JavaRun.RaisingFilesSnoc | backend/app/analyzers/java_maven.py:58-96 | the raising files of a run are those of the files before the last plus the last when it raises |
| JavaRun.RunShape | backend/app/analyzers/java_maven.py:53-96 | the parse-error counter is the number of files whose iteration raised, at least the raising parses and at most the files; the class counter is the length of the list handed to the resolver; no more methods and packages are counted than those classes and the seen packages hold |
| JavaRun.RunNoFailures | backend/app/analyzers/java_maven.py:53-96 | with no raising write the counters are the distinct non-empty packages of files with types, their classes and methods, and the raising parses |
| JavaRun.Run | backend/app/analyzers/java_maven.py:53-111 | the counts are those of the file loop; the summary mentions parse errors exactly when some file's iteration raised; with no raising write the counts are the distinct packages, the classes and methods of parsed files and the raising parses, and the classes handed to the resolver are all parsed classes; every CALLS edge and stub comes from a call site of the classes written, and every call on a known class is attributed to an owner |
| CallResolver.LastWithFullName | backend/app/analyzers/java_maven.py:721-724 | the last class with a given full name; none exactly when there is none |
| CallResolver.ClassMethodsLastWins | backend/app/analyzers/java_maven.py:720-724 | the method-name map has a key for exactly the classes' full names, holding the method names of the last class of that name |
| CallResolver.BuildClassMethods | backend/app/analyzers/java_maven.py:720-724 | the loop builds that map |
| CallResolver.BySimpleMembers | backend/app/analyzers/java_maven.py:726-730 | a simple name is a key exactly when some class has it, and its list holds exactly those classes' full names |
| CallResolver.UniqueCandidate | backend/app/analyzers/java_maven.py:743-746 | a simple name with one candidate names one class: every class with that name has that full name |
| CallResolver.BuildBySimple | backend/app/analyzers/java_maven.py:726-730 | the `setdefault(...).append` loop builds that map |
| CallResolver.ResolveTypeName | backend/app/analyzers/java_maven.py:740-746 | an import with the simple name wins; otherwise a type resolves exactly when one class has that simple name, to that class |
| CallResolver.ParentsOfMembers | backend/app/analyzers/java_maven.py:739-746 | a parent is listed exactly when some supertype resolves to it |
| CallResolver.BuildParents | backend/app/analyzers/java_maven.py:739-746 | the supertype loop builds the resolved parent list in declaration order |
| CallResolver.HierarchyShape | backend/app/analyzers/java_maven.py:732-748 | only classes of the input are keys of the hierarchy, each with a non-empty parent list |
| CallResolver.BuildHierarchy | backend/app/analyzers/java_maven.py:732-748 | the loop builds the hierarchy map, adding an entry only for classes with resolved parents |
| CallResolver.FieldTypeMap | backend/app/analyzers/java_maven.py:764-772 | a field is in the map exactly when its type resolves, and it maps to the resolved type |
| CallResolver.ResolveTarget | backend/app/analyzers/java_maven.py:777-798 | no receiver or `this`: the static import of the called name, else the caller's class; another receiver: its import, else the one class of that simple name (several give none), else the field's type |
| CallResolver.AmbiguousReceiverDropped | backend/app/analyzers/java_maven.py:790-794 | a receiver naming several classes gives no target, even when a field of that name has a resolvable type |
| CallResolver.Universe | backend/app/analyzers/java_maven.py:699-716 | the finite set of class names the search can meet holds the target and every parent in the hierarchy |
| CallResolver.SearchStep | backend/app/analyzers/java_maven.py:707-715 | visiting a new class without the method and queueing its parents keeps the search invariant and shrinks the unvisited set |
| CallResolver.SearchSkip | backend/app/analyzers/java_maven.py:709-710 | skipping a visited class keeps the invariant |
| CallResolver.SearchDone | backend/app/analyzers/java_maven.py:707-716 | when the queue runs dry no reachable class has the method |
| CallResolver.SearchRound | backend/app/analyzers/java_maven.py:707-715 | one round pops the head; a result is the head, reachable and holding the method; with no result the head lacks the method, is marked visited, and its parents are queued unless it was visited before |
| CallResolver.RoundFacts | backend/app/analyzers/java_maven.py:707-715 | a round that finds nothing keeps the search invariant, only grows the visited set, and shrinks the unvisited set or the queue |
| CallResolver.BallIffReachable | backend/app/analyzers/java_maven.py:699-716 | a class is reachable up the hierarchy exactly when it lies within some number of parent steps of the target |
| CallResolver.LevelNext | backend/app/analyzers/java_maven.py:707-715 | once the current level is used up, the queue holds exactly the next level's classes not yet accounted for |
| CallResolver.LevelPop | backend/app/analyzers/java_maven.py:707-715 | popping the head keeps the queue ordered by level |
| CallResolver.Advance | backend/app/analyzers/java_maven.py:707-715 | a round without a find keeps the search and level invariants, with progress |
| CallResolver.LevelFound | backend/app/analyzers/java_maven.py:712-714 | a class reported by the search is nearest: no class with the method is fewer parent steps from the target |
| CallResolver.SearchExhausted | backend/app/analyzers/java_maven.py:707-716 | an empty queue means no reachable class has the method |
| CallResolver.FindMethodOwner | backend/app/analyzers/java_maven.py:699-716 | the target wins when it has the method; a result is reachable, has the method and is nearest to the target; none exactly when no reachable class has it |
| CallResolver.AttributeOwner | backend/app/analyzers/java_maven.py:802-835 | the search result is reachable, has the method and is nearest; the owner is that result when it is a non-empty name, else the target when it is a known class, with its stub added once; there is no owner only for an unknown target; the map and the created names only grow |
| CallResolver.WriteEdge | backend/app/analyzers/java_maven.py:836-848 | the pair `(caller, owner.name)` is recorded and written unless it is a self call or was written before; nothing else changes |
| CallResolver.HandleSite | backend/app/analyzers/java_maven.py:802-848 | an invocation on a known target is attributed to a reachable owner holding the method, which is the target when the target declares it, with the pair recorded unless it is a self call; the only new pair and stub are this invocation's |
| CallResolver.ProcessInvocation | backend/app/analyzers/java_maven.py:777-848 | an invocation without a target changes nothing; otherwise it is handled, and every pair and stub still comes from a processed invocation |
| CallResolver.ProcessMethod | backend/app/analyzers/java_maven.py:774-848 | after one method every one of its invocations on a known class is attributed, every pair and stub comes from a processed invocation, and the edge, stub and map invariants hold |
| CallResolver.ProcessClass | backend/app/analyzers/java_maven.py:754-848 | the same after all methods of one class, with its import map and field map |
| CallResolver.HierarchyKeysKnown | backend/app/analyzers/java_maven.py:720-748 | every class with a hierarchy entry is a key of the method-name map |
| CallResolver.ReachableFromLeaf | backend/app/analyzers/java_maven.py:715 | from a class without a hierarchy entry only the class itself is reached |
| CallResolver.FinalSources | backend/app/analyzers/java_maven.py:777-848 | every pair comes from an invocation whose target is a known class, and every stub from an invocation on its class |
| CallResolver.FinalCovered | backend/app/analyzers/java_maven.py:777-848 | every invocation on a known class is attributed in the written output |
| CallResolver.CreateCallsRelationships | backend/app/analyzers/java_maven.py:718-850 | the count is the number of pairs written, all distinct; no self calls; every callee owner is reachable from the target and has the method or a stub; stubs are distinct and only for known classes lacking the method; every pair and stub comes from an invocation; every invocation whose target is a known class is attributed to a reachable owner, the target itself when it declares the method, with its pair written unless it is a self call |
| Reachability.ReachableTrans | backend/app/analyzers/java_maven.py:699-716 | reachability up the hierarchy is transitive |
| Reachability.ClosedContainsReachable | backend/app/analyzers/java_maven.py:699-716 | a set closed under parents that holds the start holds everything reachable |
| ContextModel.NormalChildFacts | backend/app/routers/contexts.py:36-40 | reading a child keeps its name and leaves it with a `parent` item: unchanged when it had one, otherwise with exactly one placeholder added at the front |
| ContextModel.ReadContext | backend/app/routers/contexts.py:32-41 | `_read_context` yields the normalised context, in which every child carries its placeholder |
| ContextModel.ReadWritten | backend/app/routers/contexts.py:32-53 | a context whose children all carry the placeholder reads back unchanged after being written |
| ContextModel.ReadIdempotent | backend/app/routers/contexts.py:32-53 | reading, writing and reading again gives what the first read gave |
| ContextModel.ChildPart | backend/app/routers/contexts.py:108-110 | a present child part is non-empty and the path is the parent name, `/`, and that part |
| ContextModel.ChildPathSplits | backend/app/routers/contexts.py:108-110 | a child path `name/child` splits back into `name` and `child` when the name has no `/` |
| ContextModel.FindChild | backend/app/routers/contexts.py:44-48 | the first child of that name; none exactly when no child has it |
| ContextItems.UnreferencedMembers | backend/app/routers/contexts.py:565 | the leftovers are exactly the items no reference names, never more than the list |
| ContextItems.UnreferencedNoop | backend/app/routers/contexts.py:565 | with no item referenced, every item is left over in its order |
| ContextItems.UnreferencedShorter | backend/app/routers/contexts.py:565 | referencing at least one item leaves fewer over |
| ContextItems.UnreferencedConcat | backend/app/routers/contexts.py:565 | filtering distributes over concatenation |
| ContextItems.UnreferencedCompose | backend/app/routers/contexts.py:565 | filtering by two reference lists in turn is filtering by both |
| ContextItems.UnreferencedDistinct | backend/app/routers/contexts.py:565 | filtering keeps the keys distinct |
| ContextItems.WithoutFacts | backend/app/routers/contexts.py:598-602 | removal keeps exactly the items of other keys, is a no-op without a match, and shortens the list exactly when there was one (the 404 test) |
| ContextItems.WithoutKeepsParent | backend/app/routers/contexts.py:822-824 | removing items of a type other than `parent` keeps the placeholder |
| ContextItems.FirstMatch | backend/app/routers/contexts.py:624-628 | the index of the first item of that key; none exactly when the list has no such item |
| ContextItems.FindItem | backend/app/routers/contexts.py:624-628 | the `enumerate` search returns the first match |
| ContextItems.PopInsertFacts | backend/app/routers/contexts.py:624-642 | the pop loses exactly the popped item; the insert adds exactly one, at `to_index` when within the list, else at its end |
| ContextItems.SetList | backend/app/routers/contexts.py:617-642 | replacing one list keeps the context's name and its children's names |
| ContextItems.ChildItemsConcat | backend/app/routers/contexts.py:617-642 | the items of concatenated children are the concatenated items |
| ContextItems.ChildItemsUpdate | backend/app/routers/contexts.py:617-642 | replacing one child changes the children's items by exactly the difference of its lists |
| ContextItems.SetListItems | backend/app/routers/contexts.py:617-642 | replacing one list changes the context's items by exactly the difference of the lists |
| ContextItems.MovedFacts | backend/app/routers/contexts.py:608-645 | a move fails exactly when the source lacks the item; otherwise it keeps every item of the context and all names, and places the first match where the insert says |
| ContextItems.Cancel | backend/app/routers/contexts.py:608-645 | multiset union cancels, the step behind the item-preservation proofs |
| ContextItems.CollapseKeys | backend/app/routers/contexts.py:558 | the `by_key` dict holds one entry per key, and exactly the keys of the items |
| ContextItems.CollapseDistinct | backend/app/routers/contexts.py:558 | with distinct keys the dict's values are the items, in order |
| ContextItems.PickPermutation | backend/app/routers/contexts.py:559-563 | the popping loop moves items from the dict to the result and loses none |
| ContextItems.PickRest | backend/app/routers/contexts.py:559-565 | with distinct keys what the loop leaves in the dict is the unreferenced items in their order |
| ContextItems.KeyAbsent | backend/app/routers/contexts.py:561-563 | a reference to a key absent from the dict changes nothing |
| ContextItems.PopUnique | backend/app/routers/contexts.py:561-563 | popping the one entry of a key is filtering that key out |
| ContextItems.PickKeys | backend/app/routers/contexts.py:559-563 | every picked item is named by a reference |
| ContextItems.FirstRef | backend/app/routers/contexts.py:559-563 | the position of a key's first reference |
| ContextItems.FirstRefPrefix | backend/app/routers/contexts.py:559-563 | a key referenced in a prefix is first referenced at the same place in the whole |
| ContextItems.PickOrder | backend/app/routers/contexts.py:559-563 | with distinct keys the picked items come in the order of their first reference |
| ContextItems.ReorderFacts | backend/app/routers/contexts.py:558-566 | with distinct keys the result is a permutation: referenced items first in order of first reference, then the rest in original order; unknown references are ignored |
| ContextItems.ReorderCollapsesDuplicates | backend/app/routers/contexts.py:558 | two items of one key collapse into the later one, in the earlier one's place |
| ContextItems.Reorder | backend/app/routers/contexts.py:558-566 | the two loops of `reorder_items` compute the reordering the lemmas describe |
| ContextMixins.MixinIdsMembers | backend/app/routers/contexts.py:127-129 | the ids pushed are exactly those of the list's mixin items |
| ContextMixins.FindStoredChild | backend/app/routers/contexts.py:123 | a found child is in the list and has the name; none only when no child has it |
| ContextMixins.ItemsMixinsHas | backend/app/routers/contexts.py:127-129 | a list mentions a path exactly when it holds a mixin item of it |
| ContextMixins.ChildrenMixinsMembers | backend/app/routers/contexts.py:170-175 | the children mention a path exactly when one child's items do |
| ContextMixins.SuccMentioned | backend/app/routers/contexts.py:108-129 | the walk only meets paths some file mentions |
| ContextMixins.PushMixins | backend/app/routers/contexts.py:127-129 | the inner loop appends the mixin ids in order |
| ContextMixins.Walk | backend/app/routers/contexts.py:97-132 | the stack-and-visited walk finds a goal exactly when one is reachable from the target, and terminates |
| ContextMixins.DetectCycle | backend/app/routers/contexts.py:90-132 | as written: a cycle is reported exactly when the source path itself is reachable from the target |
| ContextMixins.DetectParentCycle | backend/app/routers/contexts.py:90-132 | corrected: reports exactly when some path `name` or `name/...` is reachable from the target |
| ContextMixins.MixinIdsSet | backend/app/routers/contexts.py:127-129 | the pushed ids and the set of mixin ids agree |
| ContextMixins.NormalChildMixins | backend/app/routers/contexts.py:36-40 | the placeholder a read adds is not a mixin |
| ContextMixins.FindStoredChildAlike | backend/app/routers/contexts.py:123 | children with the same names and mixins lead a path to a child with the same mixins |
| ContextMixins.WalkItemsWithItem | backend/app/routers/contexts.py:121-125 | appending an item to `name` adds its mixin to what every path under `name` walks and changes no other path |
| ContextMixins.MixinIdsWithItem | backend/app/routers/contexts.py:121-129 | the pushed ids after the append are the old ones plus the new mixin for paths under `name` |
| ContextMixins.SuccWithItem | backend/app/routers/contexts.py:121-129 | the mixin graph after the append is the old one plus a step to the new target from every path under `name` |
| ContextMixins.WithItemKeepsAcyclic | backend/app/routers/contexts.py:526-547 | the append keeps the mixin graph acyclic when no path under `name` is reachable from the new mixin's target |
| ContextMixins.UsagesIffMentioned | backend/app/routers/contexts.py:135-153 | a path has users exactly when some file or child mentions it |
| ContextMixins.ItemsMixinsConcat | backend/app/routers/contexts.py:121-125 | the mixins of concatenated lists are the union |
| ContextMixins.RetargetItemsPlaces | backend/app/routers/contexts.py:191-196 | each item keeps its place; a mixin of the old path points at the new one, titled and labelled by its last segment |
| ContextMixins.RetargetItemsFacts | backend/app/routers/contexts.py:191-196 | the list mentions the new path in place of the old, and is untouched if it had none |
| ContextMixins.RetargetChildrenFacts | backend/app/routers/contexts.py:198-204 | the same for every child's items |
| ContextMixins.RetargetFileFacts | backend/app/routers/contexts.py:182-207 | a rewritten file mentions the new path in place of the old; a file with no reference comes out unchanged |
| ContextMixins.UpdateMixinReferences | backend/app/routers/contexts.py:182-207 | every file is rewritten and no file is added or lost |
| ContextMixins.RetargetEverywhere | backend/app/routers/contexts.py:182-207 | across the files the old path is renamed to the new one in the mixin graph |
| ContextMixins.DropItemsMixins | backend/app/routers/contexts.py:166-167 | filtering drops exactly that path from what a list mentions |
| ContextMixins.DropChildrenFacts | backend/app/routers/contexts.py:171-176 | each child keeps its name and place and loses exactly that path's mixins |
| ContextMixins.DropRefsMentions | backend/app/routers/contexts.py:156-179 | after the removal a file mentions what it did, less the path |
| ContextMixins.DropPlaceholderSafe | backend/app/routers/contexts.py:166-176 | removing mixins neither adds nor removes the placeholder and commutes with adding it |
| ContextMixins.DropChildRead | backend/app/routers/contexts.py:171-176 | a child read after the removal is the child read before, filtered |
| ContextMixins.DropRefsRead | backend/app/routers/contexts.py:156-179 | a file read after the removal is the context read before with every list filtered |
| ContextMixins.RemoveMixinReferences | backend/app/routers/contexts.py:156-179 | every file has its references to the path dropped, and no file is added or lost |
| ContextMixins.RemovedEverywhere | backend/app/routers/contexts.py:156-179 | afterwards nothing mentions the path and every other mention is kept |
| ContextMixins.RetargetFiles | backend/app/routers/contexts.py:182-207 | one rewriting pass keeps the set of files |
| ContextMixins.DropFiles | backend/app/routers/contexts.py:156-179 | one removal pass keeps the set of files |
| ContextMixins.RetargetAll | backend/app/routers/contexts.py:503-507 | the passes for each old and new path in turn keep the set of files |
| ContextMixins.DropAll | backend/app/routers/contexts.py:474-476 | the removal passes for each path in turn keep the set of files |
| ContextMixins.MentionedRetargetAll | backend/app/routers/contexts.py:503-507 | the passes rename the mentioned paths one after the other |
| ContextMixins.MentionedDropAll | backend/app/routers/contexts.py:474-476 | after the passes exactly the mentions of other paths remain |
| ContextMixins.DropAllWithout | backend/app/routers/contexts.py:474-478 | deleting the file and removing references commute |
| ContextMixins.MentionedWithout | backend/app/routers/contexts.py:478 | deleting a file mentions nothing new |
| ContextMixins.RenamedAllMembers | backend/app/routers/contexts.py:503-507 | with disjoint old and new paths, an old path is gone and each old path that was mentioned is mentioned under its new name |
| ContextMixins.ContextPaths | backend/app/routers/contexts.py:459-461 | the context's own path first, then `name/child` for each child in order |
| ContextMixins.ContextPathsApart | backend/app/routers/contexts.py:503-507 | paths under two different names are disjoint and rename consistently |
| ContextMixins.StoredMixins | backend/app/routers/contexts.py:498-500 | a context read and written under another name mentions what its file did |
| ContextMixins.MentionedMoved | backend/app/routers/contexts.py:498-501 | moving a file to a new name changes no mention |
| ContextMixins.ResolveMixin | backend/app/routers/contexts.py:64-87 | a mixin item of the path; 404 exactly when the parent file is missing or a named child does not exist |
| ContextStore.ListOf | backend/app/routers/contexts.py:617-636 | an absent or empty child name selects the parent's items; otherwise the first child of that name, or 404 exactly when there is none |
| ContextStore.FindChildSameNames | backend/app/routers/contexts.py:44-48 | children with the same names select the same child |
| ContextStore.Looked | backend/app/routers/contexts.py:853-931 | a cache or configuration lookup gives an item of that type and id, or passes its error on |
| ContextStore.ResolveItem | backend/app/routers/contexts.py:835-850 | the item has the requested type and id; an unknown type is a 400, a Jira key without `-` and a repository file id without `:` are 400s; instructions need no lookup and carry the request's text, empty when it has none; a mixin is resolved against the files |
| ContextStore.Labeled | backend/app/routers/contexts.py:542-543 | the label override keeps the key and title and replaces the label when given |
| ContextStore.AddItemAccepted | backend/app/routers/contexts.py:512-547 | an accepted item has the type and stripped id, duplicates nothing unless it is an instruction, an instruction carries the request's text, and a mixin names another existing context and reaches no path of this one |
| ContextStore.AddItemKeepsAcyclic | backend/app/routers/contexts.py:512-547 | with the corrected cycle check an accepted item never closes a mixin cycle |
| ContextStore.Refuse | backend/app/routers/contexts.py:526-536 | the duplicate, self-mixin and cycle checks, in the source's order, with the corrected cycle walk (see Findings) |
| ContextStore.MoveOutcomeFacts | backend/app/routers/contexts.py:608-645 | a move succeeds exactly when both lists exist and the source holds the item (else 404); it keeps every item and name and places the first match at `to_index` within the destination as it is after the pop, else at its end |
| ContextStore.AddChildReadBack | backend/app/routers/contexts.py:651-670 | a new child has exactly one placeholder and the written file reads back unchanged |
| ContextStore.RemoveChildItemReadBack | backend/app/routers/contexts.py:810-829 | removing a non-`parent` child item keeps the placeholder and the file reads back unchanged |
| ContextStore.ExamplePaths | backend/app/routers/contexts.py:108-110 | the example's paths split by their first `/` |
| ContextStore.PlaceholderNoMixins | backend/app/routers/contexts.py:127-129 | the placeholder pushes nothing |
| ContextStore.ExampleWalkA | backend/app/routers/contexts.py:121-125 | in the example a path under `A` walks at most the placeholder |
| ContextStore.ExampleSuccA | backend/app/routers/contexts.py:121-129 | in the example a path under `A` has no successor |
| ContextStore.ExampleSuccB | backend/app/routers/contexts.py:121-129 | in the example a path under `B` steps only to `A/c` |
| ContextStore.ExampleSuccOther | backend/app/routers/contexts.py:112-114 | a path with no file has no successor |
| ContextStore.ExampleSucc | backend/app/routers/contexts.py:108-129 | the example's whole mixin graph |
| ContextStore.OneStepClosed | backend/app/routers/contexts.py:97-132 | closed sets of a one-step graph |
| ContextStore.LeavesNoClosedSet | backend/app/routers/contexts.py:97-132 | nothing outside a closed set is reachable from inside it |
| ContextStore.ExampleClosed | backend/app/routers/contexts.py:97-132 | the example's walks from `A/c` and from `B` stay within those paths |
| ContextStore.SinkAcyclic | backend/app/routers/contexts.py:97-132 | a graph whose steps all end at one sink has no cycle |
| ContextStore.ExampleAcyclic | backend/app/routers/contexts.py:97-132 | the example has no mixin cycle |
| ContextStore.ExampleMissesA | backend/app/routers/contexts.py:97-132 | the walk from `B` never meets the path `A` |
| ContextStore.ParentCycleMissed | backend/app/routers/contexts.py:534-536 | as written, `add_item("A", mixin "B")` passes the cycle check yet makes the acyclic example cyclic |
| ContextStore.DeleteForgetsPaths | backend/app/routers/contexts.py:449-479 | after a deletion none of the context's paths is mentioned and every other mention of the remaining files is kept |
| ContextStore.FindUsed | backend/app/routers/contexts.py:463-465 | the usage scan finds a use exactly when some path of the context is mentioned |
| ContextStore.RemoveAllReferences | backend/app/routers/contexts.py:474-476 | the forced removal drops each path's mixins in turn |
| ContextStore.RenameMovesMentions | backend/app/routers/contexts.py:482-509 | renaming moves every mention of the context and its children to the new paths and leaves none of the old |
| ContextStore.Contexts.constructor | backend/app/routers/contexts.py:22-29 | the store starts with the given files |
| ContextStore.Contexts.GetContext | backend/app/routers/contexts.py:426-431 | the context as read, with every placeholder, or 404 exactly when there is no file |
| ContextStore.Contexts.AddContext | backend/app/routers/contexts.py:434-446 | 400 for an empty stripped name, 409 when taken, else an empty context written under that name and nothing else changed |
| ContextStore.Contexts.AddItem | backend/app/routers/contexts.py:512-547 | the outcome the checks decide, with the corrected cycle walk (see Findings); on success the item is appended to the context's items and nothing else changes; on error nothing is written |
| ContextStore.Contexts.ReorderItems | backend/app/routers/contexts.py:550-568 | the context's items reordered as `Reorder` does, or 404 with nothing written |
| ContextStore.Contexts.RemoveItem | backend/app/routers/contexts.py:591-605 | every item of the key is removed, or 404 (context or item) and nothing written |
| ContextStore.Contexts.MoveItem | backend/app/routers/contexts.py:608-645 | the move outcome is written on success, and nothing on error |
| ContextStore.Contexts.AddChild | backend/app/routers/contexts.py:651-670 | succeeds exactly for an existing context and a new non-empty stripped name, appending a child with one placeholder; else 404, 400 or 409 and nothing written |
| ContextStore.Contexts.RemoveChildItem | backend/app/routers/contexts.py:810-829 | a `parent` item is refused first; otherwise every item of the key leaves the child, or 404 and nothing written |
| ContextStore.Contexts.DeleteContext | backend/app/routers/contexts.py:449-479 | 409 exactly when a path of the context is mentioned and the deletion is not forced; otherwise the file goes, after the forced removal of those mixins |
| ContextStore.Contexts.RenameContext | backend/app/routers/contexts.py:482-509 | 400, same-name read (500 when missing), 404 and 409 as the source; otherwise the context moves to the new name and every mixin of its paths is retargeted |
| Reachability.WalkSkip | backend/app/routers/contexts.py:102-106 | popping a visited path keeps the walk's invariant |
| Reachability.WalkStep | backend/app/routers/contexts.py:102-129 | expanding a non-goal path keeps the walk's invariant |
| Reachability.WalkDone | backend/app/routers/contexts.py:101-132 | with the stack empty no goal is reachable from the start |
| Reachability.PathStaysInClosed | backend/app/routers/contexts.py:97-132 | a path that starts in a closed set stays in it |
| Reachability.FirstNewStep | backend/app/routers/contexts.py:526-547 | a path of the extended graph is an old path or takes its first new step after an old prefix |
| Reachability.LastNewStep | backend/app/routers/contexts.py:526-547 | a path of the extended graph is an old path or continues from its last new step along old steps |
| Reachability.NewCycle | backend/app/routers/contexts.py:526-547 | a new cycle runs from the new target back to a source along old steps |
| Reachability.AddStepsKeepAcyclic | backend/app/routers/contexts.py:526-547 | adding steps to a target from which no source is reachable keeps the graph acyclic |
| McpRender.CachedSpace | backend/app/mcp_server.py:193-195 | the first configured space whose cache holds the page; none exactly when no space does |
| McpRender.CommentLines | backend/app/mcp_server.py:238-242 | one line per comment shown |
| McpRender.JiraKeyAndComments | backend/app/mcp_server.py:210-244 | a key without `-` renders as malformed whatever the cache holds; a cached issue shows at most ten comments, the first ones in order, after the header lines |
| McpRender.Rendered | backend/app/mcp_server.py:23-50 | one section per item |
| McpRender.RenderedConcat | backend/app/mcp_server.py:23-50 | rendering distributes over concatenation, so rendering items one at a time is rendering the list |
| McpRender.RenderItems | backend/app/mcp_server.py:23-50 | `_render_items` gives a section per item, in order, with the item's type, id and label and its rendered content (an instruction shows its stored text) |
| McpRender.LeftFewer | backend/app/mcp_server.py:66-70 | a larger visited set leaves no more paths unvisited |
| McpRender.SubsetCard | backend/app/mcp_server.py:66-70 | a subset is no larger |
| McpRender.LeftOneFewer | backend/app/mcp_server.py:66-70 | marking an unvisited path visited leaves strictly fewer unvisited, which bounds the recursion |
| McpRender.ThenGrows | backend/app/mcp_server.py:98-113 | two expansions in a row grow the visited set by exactly the paths they expanded, each once |
| McpRender.FileMixinsWithin | backend/app/mcp_server.py:81-85 | the mixins of a context as read are mentioned paths |
| McpRender.Expand | backend/app/mcp_server.py:53-113 | `render_context_sections` grows the visited set by exactly the paths it expands, each once and none visited before |
| McpRender.ExpandContext | backend/app/mcp_server.py:85-113 | the same once the context is read, for a parent path, a known child and an unknown child |
| McpRender.ExpandTop | backend/app/mcp_server.py:106-113 | the same for the loop over a parent's items |
| McpRender.ExpandChild | backend/app/mcp_server.py:90-103 | the same for the loop over a child's items |
| McpRender.ThenAssoc | backend/app/mcp_server.py:90-113 | appending expansions is associative |
| McpRender.RenderContextSections | backend/app/mcp_server.py:53-113 | the recursive walk with a shared visited set computes `Expand`: a visited path renders nothing, a missing file renders nothing, and mixin cycles terminate |
| McpRender.RenderContext | backend/app/mcp_server.py:85-113 | the rest of the walk once the context is read computes `ExpandContext` |
| McpRender.RenderTop | backend/app/mcp_server.py:106-113 | the top-level loop computes `ExpandTop` |
| McpRender.RenderChild | backend/app/mcp_server.py:90-103 | the child loop computes `ExpandChild` |
| McpRender.FlattenedFront | backend/app/mcp_server.py:90-97 | a child with its placeholder in front shows the parent's items first, then its own |
| McpRender.NoParentFlat | backend/app/mcp_server.py:90-101 | items without a placeholder show as they are |
| McpRender.TopWithoutMixins | backend/app/mcp_server.py:106-113 | without mixins the top level renders its items in order and visits nothing |
| McpRender.ChildWithoutMixins | backend/app/mcp_server.py:90-103 | without mixins a child renders the parent's items in place of its placeholder and visits nothing |
| McpRender.ExpandWithoutMixins | backend/app/mcp_server.py:53-113 | without mixins an unvisited path renders exactly the items it shows, one section each in order, and only the path is marked visited |
| McpRender.SelfMixinCut | backend/app/mcp_server.py:66-70 | a context whose only item is a mixin of itself renders nothing: the cycle is cut at the second visit |
| McpRender.Blocks | backend/app/mcp_server.py:158-164 | one block per section |
| McpRender.GetContext | backend/app/mcp_server.py:125-166 | the reply for the path rendered from an empty visited set: not found, no items, or the table of contents and delimited sections |
| McpRender.TocLines | backend/app/mcp_server.py:142-156 | the table-of-contents loop builds the numbered table |
| McpRender.BlockLines | backend/app/mcp_server.py:158-164 | the delimiter loop wraps each section |
| McpRender.TocNumbered | backend/app/mcp_server.py:140-156 | the table numbers its entries from 1 in section order, each with its type label and label, between the count line and the delimiter note naming the first label |
| McpRender.CountWording | backend/app/mcp_server.py:145 | the count line says "items" exactly when the count is not 1 |
| McpRender.BlockContent | backend/app/mcp_server.py:158-164 | a block gives its section's content back once its BEGIN and END lines are removed |
| McpRender.MissingContext | backend/app/mcp_server.py:132-137 | a path without `/` whose file is missing is reported as not found |
| Confluence.FindSpace | backend/app/routers/confluence.py:28-32 | the first configured space whose key matches case-insensitively; 404 naming the key exactly when none does |
| Confluence.WikiPrefix | backend/app/routers/confluence.py:35-36 | `/wiki` exactly for a cloud deployment, otherwise empty |
| Confluence.ParentId | backend/app/routers/confluence.py:76-77 | a page's parent is its last ancestor; none exactly when it has no ancestors |
| Confluence.Page.constructor | backend/app/routers/confluence.py:75-83 | the flat record of a page: missing title empty, missing version 1, no children yet |
| Confluence.IndexOf | backend/app/routers/confluence.py:41 | `by_id` holds exactly the ids of the list, each to a page of the list with that id |
| Confluence.IndexLastWins | backend/app/routers/confluence.py:41 | an id indexes the last page of the list carrying it |
| Confluence.RootsMembers | backend/app/routers/confluence.py:42-48 | the roots are exactly the pages with no known parent |
| Confluence.UnderMembers | backend/app/routers/confluence.py:43-46 | the pages placed under a page are exactly those whose parent id indexes it |
| Confluence.BuildPageTree | backend/app/routers/confluence.py:39-49 | the roots in input order, and every indexed page's children extended by the pages placed under it |
| Confluence.IndexPages | backend/app/routers/confluence.py:41 | the dict comprehension builds `IndexOf` |
| Confluence.PlacedOnce | backend/app/routers/confluence.py:39-49 | every page is placed exactly once: a root exactly when it has no known parent, otherwise under the page its parent id indexes and no other |
| Confluence.RootsAndAttached | backend/app/routers/confluence.py:39-49 | roots and attached pages together are as many as the pages |
| Fences.LastFence | backend/app/routers/query.py:250 | the start of the last triple backtick, none exactly when there is none |
| Fences.BeforeLastFence | backend/app/routers/query.py:250 | what comes before the last fence is a prefix of the text |
| Fences.StripFences | backend/app/routers/query.py:247-250 | an unfenced reply is only stripped; a fenced reply without a line break fails (the `[1]` index raises) |
| Fences.SplitFirstAt | backend/app/routers/query.py:249 | splitting at the first separator gives the text before and after it |
| Fences.FencedReply | backend/app/analyzers/functional_doc.py:317-320 | a reply fenced as "```lang", a body and "```" gives back the stripped body |
| AiConfig.FirstWhere | backend/app/analyzers/functional_doc.py:281-285 | the first element satisfying the test (the first task of a type, the first provider of a name); none exactly when no element does |
| AiConfig.TaskProvider | backend/app/analyzers/functional_doc.py:280-287 | given exactly when the first task of the type names an existing provider, and then it is the first configured provider with the name that first task gives |
| FunctionalDoc.PreorderAppend | backend/app/analyzers/functional_doc.py:144-148 | walking consecutive sibling lists is walking each in turn |
| FunctionalDoc.PreorderSize | backend/app/analyzers/functional_doc.py:144-148 | the walk lists every page exactly once |
| FunctionalDoc.PreorderLayout | backend/app/analyzers/functional_doc.py:144-148 | each page comes after its earlier siblings' walks and right before its children's walk |
| FunctionalDoc.Walk | backend/app/analyzers/functional_doc.py:144-148 | `_walk` appends the preorder ids of the pages |
| FunctionalDoc.CollectPageIds | backend/app/analyzers/functional_doc.py:135-151 | no index gives no ids; otherwise every page of the index in preorder, one id per page |
| FunctionalDoc.FindProvider | backend/app/analyzers/functional_doc.py:280-290 | the provider the `functional_doc` task names, else the first one; an error exactly when none is configured |
| FunctionalDoc.Truncate | backend/app/analyzers/functional_doc.py:302-303 | a prompt over 30000 characters is cut to its first 30000 and marked; a shorter one is unchanged |
| FunctionalDoc.NearEmptySkipsAi | backend/app/analyzers/functional_doc.py:211-223 | a page whose stripped text is under 20 characters gets the fixed overview result whatever the AI would answer |
| Browse.FirstPresent | backend/app/routers/browse.py:236-238 | the first label of the order the node carries; none exactly when it carries none |
| Browse.DetectLevel | backend/app/routers/browse.py:234-239 | the first of Class, Package, Module, Repository the node carries; `root` exactly when it carries none |
| Browse.DetectArchLevel | backend/app/routers/browse.py:242-247 | the first of RESTInterface, FeignClient, JMSDestination the node carries; empty exactly when none |
| Browse.Search | backend/app/routers/browse.py:251-256 | a search string shorter than two characters finds nothing; otherwise the query's hits |
| Browse.ParseVirtual | backend/app/routers/browse.py:475-480 | an id without `@` after the prefix lists nothing |
| Browse.VirtualIdParses | backend/app/routers/browse.py:475-486 | a virtual id whose key has no `@` parses back to its key and microservice id (which may hold `@`) |
| Browse.CategoryKeys | backend/app/routers/browse.py:80-87 | no category key holds `@`, and each is `jms` or has queries of its own |
| Browse.VirtualIdRoundTrip | backend/app/routers/browse.py:405-427 | the id of every category node expands back to that category and microservice |
| Browse.VisibleExactly | backend/app/routers/browse.py:408-420 | a category is shown exactly when its count is not zero |
| Browse.VisibleNames | backend/app/routers/browse.py:408-427 | every node shown stands for a category of the table |
| Browse.CategoryShown | backend/app/routers/browse.py:405-427 | under a microservice a category is listed exactly when its count is not zero, and its id leads back to it |
| Browse.CategoryNames | backend/app/routers/browse.py:80-87 | the category names are distinct |
| Browse.GetMsCategories | backend/app/routers/browse.py:405-427 | the loop lists the non-empty categories in table order |
| Browse.Position | backend/app/routers/browse.py:466 | where a node of that id sits; none exactly when no node has it |
| Browse.IdsSnoc | backend/app/routers/browse.py:466 | appending a node adds its id |
| Browse.PutFacts | backend/app/routers/browse.py:466 | assigning into the dict keeps ids unique, adds the id, maps it to the node and leaves other ids alone |
| Browse.EntryUnique | backend/app/routers/browse.py:466 | with unique ids the dict entry is the node holding the id |
| Browse.EntryAppend | backend/app/routers/browse.py:466-471 | appending a node of another id leaves an entry alone |
| Browse.ByIdFacts | backend/app/routers/browse.py:466 | the dict built from the listener rows holds each id once, with the last row of that id |
| Browse.SetDefaultFacts | backend/app/routers/browse.py:470-471 | `setdefault` keeps ids unique, and only adds an id that was absent |
| Browse.FirstWithSnoc | backend/app/routers/browse.py:470-471 | the first row with an id, found from the back |
| Browse.WithDefaultsFacts | backend/app/routers/browse.py:470-471 | the producer loop keeps present ids' nodes and gives a new id its first producer row |
| Browse.MergedFacts | backend/app/routers/browse.py:466-471 | each destination appears once; one reached by a listener as the listener query returned it, one reached only by producers as the first producer row |
| Browse.BelowAll | backend/app/routers/browse.py:472 | a node below the first of a sorted list can go in front |
| Browse.InsertByName | backend/app/routers/browse.py:472 | insertion keeps the list sorted by name and adds exactly the node |
| Browse.InsertedAfter | backend/app/routers/browse.py:472 | the insertion step after the head keeps the order and the contents |
| Browse.SortByName | backend/app/routers/browse.py:472 | the result is sorted by name and a permutation of the input |
| Browse.InsertIds | backend/app/routers/browse.py:472 | insertion adds the node's id, and a new id keeps the ids unique |
| Browse.ConsIds | backend/app/routers/browse.py:472 | ids of a list with a node in front |
| Browse.SortIds | backend/app/routers/browse.py:472 | sorting keeps the ids, and unique ids stay unique |
| Browse.JmsForMs | backend/app/routers/browse.py:450-472 | `_get_jms_for_ms` returns the merged destinations sorted by name |
| Browse.JmsListed | backend/app/routers/browse.py:450-472 | the destinations listed are sorted by name, each id once, exactly the ids of listener and producer rows, and a permutation of the merge |
| CypherValidator.BlankQuotedPrefix | backend/app/cypher_validator.py:11-12 | text without the quote character passes through the blanking unchanged |
| CypherValidator.BlankQuotedLiteral | backend/app/cypher_validator.py:11-12 | a complete literal becomes an empty one, whatever it held |
| CypherValidator.SpacesFrom | backend/app/cypher_validator.py:4 | `\s*`: the longest run of whitespace from a position |
| CypherValidator.Literal | backend/app/cypher_validator.py:4 | a keyword alternative matches within the text |
| CypherValidator.DetachDelete | backend/app/cypher_validator.py:4 | `DETACH\s+DELETE` matches within the text |
| CypherValidator.CallBrace | backend/app/cypher_validator.py:4 | `CALL\s*\{` matches within the text |
| CypherValidator.MatchAt | backend/app/cypher_validator.py:3-6 | the first alternative of the pattern that matches at a place, within the text |
| CypherValidator.FirstMatch | backend/app/cypher_validator.py:13 | `search`: the leftmost place where a write keyword starts; none exactly when there is none |
| CypherValidator.ValidateReadOnly | backend/app/cypher_validator.py:9-16 | safe, with an empty message, exactly when no write keyword starts anywhere in the blanked text; otherwise the message starts with the fixed prefix |
| CypherValidator.UnsafeMessage | backend/app/cypher_validator.py:13-15 | an unsafe query's message names the leftmost keyword's text as written |
| CypherValidator.SingleQuotedIgnored | backend/app/cypher_validator.py:11 | whatever a single-quoted literal holds, the verdict and message are the same |
| CypherValidator.QuotedBlanked | backend/app/cypher_validator.py:11-12 | a literal quoted with either quote character after text free of it is blanked in place by that quote's pass |
| CypherValidator.DoubleQuotedIgnored | backend/app/cypher_validator.py:12 | the same for a double-quoted literal holding no single quote |
| CypherValidator.DoubleBlanked | backend/app/cypher_validator.py:11-12 | a double-quoted literal after quote-free text is blanked by both passes |
| CypherValidator.KeywordRejected | backend/app/cypher_validator.py:3-15 | a keyword in any case, at the start or after a non-word character and outside quotes, makes the query unsafe whatever follows |
| CypherValidator.PlainPrefix | backend/app/cypher_validator.py:11-12 | quote-free text before the first literal is kept |
| CypherValidator.CreatedPropertyRejected | backend/app/cypher_validator.py:4 | `RETURN n.created` is refused, the pattern having no boundary after the keyword |
| CypherValidator.KeywordHead | backend/app/cypher_validator.py:5 | a keyword found at a place begins with that character's capital |
| CypherValidator.NoKeywordAtO | backend/app/cypher_validator.py:4 | no write keyword begins with `o` |
| CypherValidator.OffsetAccepted | backend/app/cypher_validator.py:4 | `offset` passes: it holds `set` but not after a word boundary |
| CypherValidator.UpperAt | backend/app/cypher_validator.py:5 | capitalising works character by character |
| CypherValidator.UpperSlice | backend/app/cypher_validator.py:5 | capitalising commutes with slicing |
| CypherValidator.UpperTwice | backend/app/cypher_validator.py:5 | capitalising is idempotent |
| CypherValidator.FindUpper | backend/app/cypher_validator.py:5 | capitals leave quotes where they are |
| CypherValidator.UpperIndex | backend/app/cypher_validator.py:5 | the capital of one character |
| CypherValidator.UpperCons | backend/app/cypher_validator.py:5 | capitalising a text with a character in front |
| CypherValidator.BlankUpper | backend/app/cypher_validator.py:5-12 | blanking literals and capitalising commute |
| CypherValidator.BlankUpperLiteral | backend/app/cypher_validator.py:5-12 | the same over one complete literal |
| CypherValidator.UpperQuotePair | backend/app/cypher_validator.py:5-12 | capitals keep an empty literal |
| CypherValidator.BlankLiteralStep | backend/app/cypher_validator.py:11-12 | blanking a text that opens with a complete literal |
| CypherValidator.UpperQuoteLiteral | backend/app/cypher_validator.py:5-12 | the capitalised text has its literal at the same place |
| CypherValidator.SpacesUpper | backend/app/cypher_validator.py:4-5 | whitespace runs do not depend on case |
| CypherValidator.KeywordUpper | backend/app/cypher_validator.py:4-5 | whether a keyword is at a place does not depend on case |
| CypherValidator.LiteralUpper | backend/app/cypher_validator.py:4-5 | nor whether an alternative matches |
| CypherValidator.DetachDeleteUpper | backend/app/cypher_validator.py:4-5 | nor `DETACH\s+DELETE` |
| CypherValidator.CallBraceUpper | backend/app/cypher_validator.py:4-5 | nor `CALL\s*\{` |
| CypherValidator.MatchAtUpper | backend/app/cypher_validator.py:3-6 | which alternative matches at a place, and its length, does not depend on case |
| CypherValidator.MatchesUpper | backend/app/cypher_validator.py:3-6 | whether a write keyword starts at a place does not depend on case |
| CypherValidator.CaseBlind | backend/app/cypher_validator.py:3-16 | a query and its capitalised form get the same verdict (`re.IGNORECASE`) |
| Session.SessionStore.constructor | backend/app/session.py:5-6 | a new store holds no key, so the application starts locked |
| Session.SessionStore.SetKey | backend/app/session.py:8-9 | holds the key, which unlocks |
| Session.SessionStore.GetKey | backend/app/session.py:11-12 | the key held, present exactly when unlocked |
| Session.SessionStore.ClearKey | backend/app/session.py:14-15 | forgets the key, which locks |
| JobStore.Job.constructor | backend/app/job_store.py:15-23 | a new job is pending with an empty log and no start, end, summary or error |
| JobStore.InsertByAge | backend/app/job_store.py:31-32 | insertion keeps the jobs newest first and adds exactly the job |
| JobStore.KeptBehind | backend/app/job_store.py:31-32 | the insertion step after the head keeps the order and the contents |
| JobStore.ByAge | backend/app/job_store.py:31-32 | the jobs newest first, a permutation of the input |
| JobStore.Store.constructor | backend/app/job_store.py:9-10 | the store starts empty |
| JobStore.Store.CreateJob | backend/app/job_store.py:12-25 | a fresh pending job with an empty log stored under the drawn id, replacing any job of that id; the store's invariant holds |
| JobStore.Store.GetJob | backend/app/job_store.py:27-28 | the job of that id, none exactly when it is not stored |
| JobStore.Store.GetAllJobs | backend/app/job_store.py:30-32 | every stored job exactly once, newest first |
| JobStore.Store.OrderCount | backend/app/job_store.py:10 | the insertion order lists as many ids as are stored |
| JobStore.Store.AddLog | backend/app/job_store.py:34-41 | one entry appended to the job's log and nothing else of it changed; an unknown id changes nothing |
| JobStore.Store.UpdateStatus | backend/app/job_store.py:43-55 | the status set; RUNNING stamps the start, COMPLETED or FAILED the end; error and summary replaced only by a non-empty value; the log unchanged; an unknown id changes nothing |
| JobStore.DistinctCard | backend/app/job_store.py:30-32 | a list without repeats has as many distinct elements as entries |
| Query.FindQueryProvider | backend/app/routers/query.py:175-188 | the provider of the `cypher_generation` task, else of the `repository_analysis` task, else the first; 400 exactly when none is configured |
| Query.KeysSnoc | backend/app/routers/query.py:213-224 | appending an entry adds its id to the ids present |
| Query.AppendNewFacts | backend/app/routers/query.py:213-224 | the merge keeps the existing entries in order, appends only fetched entries with a new id, ends with the ids of both lists, and keeps unique ids unique |
| Query.OrphanMeaning | backend/app/routers/query.py:192-201 | an id is an orphan exactly when a method node carries it and no HAS_METHOD relationship ends at it |
| Query.GraphData.constructor | backend/app/routers/query.py:265-271 | the result holds the nodes and relationships read |
| Query.GraphData.EnrichOrphanMethods | backend/app/routers/query.py:191-224 | without orphans nothing is queried or changed; otherwise the orphan ids are queried once and the new nodes and relationships appended |
| Query.GraphData.MergeNodes | backend/app/routers/query.py:215-219 | the node loop appends the fetched nodes with new ids, and leaves the relationships alone |
| Query.GraphData.MergeRelationships | backend/app/routers/query.py:220-224 | the relationship loop appends the fetched relationships with new ids, and leaves the nodes alone |
| Query.EnrichedKeeps | backend/app/routers/query.py:191-224 | enrichment keeps what the result held, in order, and adds no duplicate id |
| Query.Generate | backend/app/routers/query.py:229-253 | 403 when locked, 400 when no provider is configured, before the AI is asked |
| Query.UnsafeNotRun | backend/app/routers/query.py:255-259 | a generated query that is not read-only comes back with its error and no results, and is never run |
| Query.ExecuteQuery | backend/app/routers/query.py:227-279 | the whole of `execute_query`: lock, provider, generation, fence removal, read-only gate, read and enrichment |
| Query.ExpandDepth | backend/app/routers/query.py:499 | the depth used is the requested one capped at 5 |
| Query.ExpandGate | backend/app/routers/query.py:492-500 | an unknown operation is a 400 before any query; a known one whose template has only the `depth` field is filled with a depth of at most 5, the requested one when it is not above 5; a known one whose template has another field is a 500 before any query |
| Query.ExpandNode | backend/app/routers/query.py:485-522 | the whole of `expand_node` with the templates as written: lock, operation check, `format` (a 500 for `show_imports`), depth cap, read (its failure reported in the answer) and enrichment |
| Query.ShowImportsFails | backend/app/routers/query.py:338-344 | as written, `show_imports` is the one known operation whose template `format` cannot fill, and every unlocked request for it is a 500 |
| Query.CorrectedExpandsAll | backend/app/routers/query.py:282-482 | with the `show_imports` map written in doubled braces, every known operation fills and every unlocked request for one is answered; no other template changes |
| Strs.SplitFirst | backend/app/routers/contexts.py:108-110 | `split(c, 1)`: with a separator, the text is the part before, the separator and the part after, the part before holding none |
| Strs.LastSegmentSplit | backend/app/routers/contexts.py:194-195 | `split("/")[-1]` of a text is what follows its last `/` |

## Left out

- Java parsing: tree-sitter, the syntax-tree walk and the reading of files are a foreign library. The extractor is modelled from its output records and a small tree of nested types.
- Graph database access: the driver and the Cypher texts of every read and write are I/O. For the Java file loop the model keeps only which node writes raise, as a parameter.
  - Reads are input lists of records.
  - Writes are outputs.
  - A raising write is given as an input set of failing writes.
- Deleting a module's old data before a run (`_clear_module_data`) and the walk over `.java` files are I/O. The model starts from the list of parsed file outcomes.
- JSON decoding of stored annotation lists is a library. `StoredJson` carries the stored text and what the decoder makes of it.
- Files of the context directory, reads and writes: the directory is a map from context name to decoded file contents.
- The Jira cache and its freshness check are I/O. A cached issue is an input of the renderer.
- Confluence network fetches and their pagination are I/O, and so is `list_spaces`. Only the parent-id rule of `_fetch_pages_flat` is modelled, applied to the pages as fetched.
- HTML cleaning of Confluence pages is a library. The cleaned text is an input.
- OpenAI calls in the query route and the functional-documentation run are external services. They are the `ask` parameter. In the functional-documentation run, the decoding of the answer's JSON is the `parse` parameter.
- The functional-documentation run writes each document and the index to disk. That writing is I/O. Of its `DocResult`, only the fields the near-empty-page rule and the page walk use are modelled.
- Configuration, encryption and settings storage are thin wrappers over libraries. The AI configuration is an input record.
- Background jobs and threads (`asyncio` tasks, `to_thread`) are concurrency. Job store methods are modelled as sequential calls.
- Wall-clock time and uuid generation in the job store are parameters of the methods.
- Logging and progress messages are left out.
- Python `re` patterns are modelled as explicit scanners over ASCII.
  - `\s` is the ASCII whitespace characters (space, tab, line feed, vertical tab, form feed, carriage return) plus the separators 0x1c-0x1f, as Python matches them. `\w` is ASCII letters, digits and `_`.
  - `IGNORECASE` is ASCII upper-casing.
  - Unicode whitespace, word characters and case folding are not modelled.
- `str.strip()` and `str.upper()` are modelled on ASCII for the same reason.
- SpringScheduled.PyStr: a list argument is displayed as each text in single quotes. Python's `repr` escapes backslashes and switches to double quotes for a text holding a single quote; neither is modelled.
- EnricherBase.ParseJson: only a stored value that decodes to a list is modelled. A value that decodes to other JSON, such as the object `{}`, a number or a string, is returned by the source as it is. The enrichers then iterate over it, which the model does not follow.
- Contexts routes outside the modelled core are left out:
  - `update_item` and `update_child_item`, which rewrite an item's label or text;
  - `delete_child` and `rename_child`, which act on one child of one file;
  - `add_child_item`, whose cycle check starts from the child's own path;
  - `reorder_child_items`, the same reordering over a child's list;
  - `get_contexts`, a directory listing;
  - the `/meta` routes: repositories, repo tree, preview, all paths and contributing contexts. These list files or render through the same expansion.
- Item resolution for Confluence pages, Jira issues, git repositories and repository files reads caches and the filesystem. Its results are inputs: `lookup` in the store and the source records of the renderer. Instructions are resolved in the model, with the request's text stored on the item and rendered from it.
- The MCP server's tool wiring and its `list_contexts` tool are I/O. Only rendering is modelled.
- ContextStore.Contexts.DeleteContext: a refusal carries the 409 message. The list of the paths that still use the context, which the detail also holds, is not stated.
- ContextStore.Contexts.RenameContext: renaming a missing context to its own name reads a file that is not there. The model gives the 500 response of an unhandled exception, not the exception itself.
- CallResolver.FindMethodOwner: proves that a result is nearest: no class holding the method is fewer parent steps from the target. When several classes at the same distance hold the method, it does not state which one the queue order picks, since that depends on the order of the parent lists along every path.
- CallResolver.CreateCallsRelationships: states that each invocation on a known class is attributed to a reachable class that holds the method, and to the target itself when the target declares it. It does not restate at this level that the owner is the nearest one. Each search runs over the method-name map as extended by earlier stubs, and AttributeOwner states nearness for that map.
- SpringJms.SendToAll: producer destinations are a set. The order of the SENDS_TO writes, which follows Python's set iteration, is chosen arbitrarily.
- Browse.SortByName: states that the result is ascending by name and is a permutation. Stability among equal names is not stated.
- JobStore.ByAge: states that the result is newest first and is a permutation of the jobs. Stability among equal creation times is not stated.
- JobStore.Store.GetAllJobs: the same as `JobStore.ByAge`, whose result it returns.
- Query.GraphData.EnrichOrphanMethods: the read of the parent classes cannot fail. A raising read, which the route would turn into an error, is not modelled.

## Findings

| source | as written | input that shows it | evidently intended | confidence | as-written member | corrected member |
|---|---|---|---|---|---|---|
| backend/app/routers/contexts.py:90-132, 534-536 | `add_item` asks `_detect_cycle(name, id)`. That walk reports a cycle only when it reaches the path `name` itself. A child path `name/c` carries a parent placeholder that stands for `name`'s items, so reaching `name/c` closes a cycle too. | Context `A` has a child `c` that holds only its placeholder, and context `B` has the mixin `A/c`. `add_item("A", mixin "B")` is accepted, giving the cycle `B` → `A/c` → `A`'s items → `B` | refuse the item when the walk from the target reaches `name` or any `name/...` path | not executed | ContextMixins.DetectCycle, ContextStore.ParentCycleMissed | ContextMixins.DetectParentCycle, ContextMixins.WithItemKeepsAcyclic, ContextStore.AddItemKeepsAcyclic, ContextStore.Refuse, ContextStore.Contexts.AddItem |
| backend/app/routers/query.py:342, 500 | The `show_imports` template holds the Cypher map `{full_name: imp_fqn}`. `template.format(depth=depth)` reads it as a replacement field and raises `KeyError('full_name')` outside every `try`. | Any unlocked `expand_node` request with operation `show_imports`: the answer is a 500, whatever the node and depth | write the map as `{{full_name: imp_fqn}}` so that `format` emits it unchanged, and answer with the classes the node imports | not executed | Query.ShowImportsFails, Query.ExpandNode | Query.CorrectedExpandsAll, Query.ExpandGate |
