/** The tree browser's own logic (backend/app/routers/browse.py): the hierarchy level of a node
  * from its labels, the search guard, the virtual category nodes of a microservice and their
  * ids, and the merged, name-sorted list of a microservice's JMS destinations. The Cypher
  * queries are inputs: their results are passed in. */
module Browse {
  import opened Wrappers
  import opened Strs
  import opened Sorting

  /** A tree node as the browser returns it. */
  datatype TreeNode = TreeNode(id: string, labels: seq<string>, name: string, hasChildren: bool, kind: string)

  // ---------------------------------------------------------------------------------------
  // Levels
  // ---------------------------------------------------------------------------------------

  /** The first label of `order` that the node carries. */
  function FirstPresent(order: seq<string>, labels: seq<string>): (r: Option<nat>)
    ensures r.None? <==> forall i :: 0 <= i < |order| ==> order[i] !in labels
    ensures r.Some? ==> r.value < |order| && order[r.value] in labels
                        && forall i :: 0 <= i < r.value ==> order[i] !in labels
  {
    if order == [] then None
    else if order[0] in labels then Some(0)
    else match FirstPresent(order[1..], labels)
      case None => None
      case Some(k) => Some(k + 1)
  }

  const TechnicalLevels := ["Class", "Package", "Module", "Repository"]
  const ArchLevels := ["RESTInterface", "FeignClient", "JMSDestination"]

  /** `_detect_level`: the most specific of Class, Package, Module and Repository the node
    * carries, else `root`. */
  function DetectLevel(labels: seq<string>): (r: string)
    ensures r == "root" <==> forall i :: 0 <= i < |TechnicalLevels| ==> TechnicalLevels[i] !in labels
    ensures r != "root" ==> exists k :: 0 <= k < |TechnicalLevels| && r == TechnicalLevels[k] && r in labels
                                        && forall i :: 0 <= i < k ==> TechnicalLevels[i] !in labels
  {
    match FirstPresent(TechnicalLevels, labels)
    case None => "root"
    case Some(k) => TechnicalLevels[k]
  }

  /** `_detect_arch_level`: the first of RESTInterface, FeignClient and JMSDestination the node
    * carries, else the empty string. */
  function DetectArchLevel(labels: seq<string>): (r: string)
    ensures r == "" <==> forall i :: 0 <= i < |ArchLevels| ==> ArchLevels[i] !in labels
    ensures r != "" ==> exists k :: 0 <= k < |ArchLevels| && r == ArchLevels[k] && r in labels
                                    && forall i :: 0 <= i < k ==> ArchLevels[i] !in labels
  {
    match FirstPresent(ArchLevels, labels)
    case None => ""
    case Some(k) => ArchLevels[k]
  }

  /** `search_nodes`: a search string of fewer than two characters finds nothing without
    * querying; otherwise the query's hits are returned. */
  function Search(q: string, hits: seq<TreeNode>): (r: seq<TreeNode>)
    ensures |q| < 2 ==> r == []
    ensures |q| >= 2 ==> r == hits
  {
    if |q| < 2 then [] else hits
  }

  // ---------------------------------------------------------------------------------------
  // Virtual categories
  // ---------------------------------------------------------------------------------------

  datatype Category = Category(key: string, name: string, kind: string)

  const ArchCategories := [
    Category("rest-apis", "REST APIs", "category"),
    Category("feign-clients", "Feign Clients", "category"),
    Category("jms", "JMS", "category"),
    Category("scheduled-tasks", "Scheduled Tasks", "category"),
    Category("http-clients", "HTTP Clients", "category"),
    Category("repositories", "Repositories", "category")]

  /** The categories counted and listed by a query of their own; `jms` is handled apart. */
  const QueryKeys := ["rest-apis", "feign-clients", "scheduled-tasks", "http-clients", "repositories"]

  const VirtualPrefix := "virtual:"

  /** The id of a category node under a microservice. */
  function VirtualId(key: string, msId: string): string {
    VirtualPrefix + key + "@" + msId
  }

  /** What expanding a virtual id lists. */
  datatype VirtualTarget = NoChildren | JmsOf(msId: string) | QueryOf(key: string, msId: string)

  /** `_expand_virtual_category`: the text after `virtual:` splits at its first `@` into a
    * category key and a microservice id; without `@`, or for an unknown key, nothing. */
  function ParseVirtual(vid: string): (r: VirtualTarget)
    ensures '@' !in RemovePrefix(vid, VirtualPrefix) ==> r == NoChildren
  {
    var rest := RemovePrefix(vid, VirtualPrefix);
    match SplitFirst(rest, '@')
    case (_, None) => NoChildren
    case (key, Some(msId)) =>
      if key == "jms" then JmsOf(msId)
      else if key in QueryKeys then QueryOf(key, msId)
      else NoChildren
  }

  /** A virtual id whose key holds no `@` parses back to its key and microservice id (which may
    * itself hold `@`). */
  lemma VirtualIdParses(key: string, msId: string)
    requires '@' !in key
    ensures ParseVirtual(VirtualId(key, msId)) ==
              if key == "jms" then JmsOf(msId) else if key in QueryKeys then QueryOf(key, msId) else NoChildren
  {
    var rest := key + "@" + msId;
    assert VirtualId(key, msId) == VirtualPrefix + rest;
    PrefixAppend(VirtualPrefix, rest);
    assert rest == key + ['@'] + msId;
    var (k, m) := SplitFirst(rest, '@');
    assert rest[|key|] == '@';
    assert k == rest[..|key|] == key;
    assert m.value == rest[|key| + 1..] == msId;
  }

  /** No category key holds `@`, and each is `jms` or has a query of its own. */
  lemma CategoryKeys()
    ensures forall c :: c in ArchCategories ==> '@' !in c.key && (c.key == "jms" || c.key in QueryKeys)
  {
    forall c | c in ArchCategories
      ensures '@' !in c.key && (c.key == "jms" || c.key in QueryKeys)
    {
      var i :| 0 <= i < |ArchCategories| && ArchCategories[i] == c;
      if i == 2 {
        assert c.key == "jms";
      } else {
        var j := if i < 2 then i else i - 1;
        assert c.key == QueryKeys[j];
        QueryKeysNoAt();
      }
    }
  }

  lemma QueryKeysNoAt()
    ensures forall j :: 0 <= j < |QueryKeys| ==> '@' !in QueryKeys[j]
  {
    assert '@' !in "rest-apis";
    assert '@' !in "feign-clients";
    assert '@' !in "scheduled-tasks";
    assert '@' !in "http-clients";
    assert '@' !in "repositories";
  }

  /** The id of every category node parses back to that category and microservice. */
  lemma VirtualIdRoundTrip(c: Category, msId: string)
    requires c in ArchCategories
    ensures ParseVirtual(VirtualId(c.key, msId)) == (if c.key == "jms" then JmsOf(msId) else QueryOf(c.key, msId))
  {
    CategoryKeys();
    VirtualIdParses(c.key, msId);
  }

  /** The number shown for a category: its count query's result, or for `jms` the number of
    * destinations reached by listeners or producers together. */
  function CategoryCount(key: string, queryCount: string -> nat, jmsIds: set<string>): nat {
    if key in QueryKeys then queryCount(key)
    else if key == "jms" then |jmsIds|
    else 1
  }

  function CategoryNode(c: Category, msId: string): TreeNode {
    TreeNode(VirtualId(c.key, msId), ["Virtual"], c.name, true, c.kind)
  }

  /** The category nodes shown for a microservice: those with a non-zero count, in table order. */
  function VisibleCategories(cats: seq<Category>, msId: string, queryCount: string -> nat, jmsIds: set<string>): seq<TreeNode> {
    if cats == [] then []
    else
      var n := |cats| - 1;
      VisibleCategories(cats[..n], msId, queryCount, jmsIds)
      + (if CategoryCount(cats[n].key, queryCount, jmsIds) == 0 then [] else [CategoryNode(cats[n], msId)])
  }

  /** A category is shown exactly when its count is not zero (category names being distinct). */
  lemma {:induction false} VisibleExactly(cats: seq<Category>, msId: string, queryCount: string -> nat, jmsIds: set<string>, c: Category)
    requires forall i, j :: 0 <= i < j < |cats| ==> cats[i].name != cats[j].name
    requires c in cats
    ensures CategoryNode(c, msId) in VisibleCategories(cats, msId, queryCount, jmsIds)
            <==> CategoryCount(c.key, queryCount, jmsIds) != 0
  {
    var n := |cats| - 1;
    var front := cats[..n];
    var v := VisibleCategories(front, msId, queryCount, jmsIds);
    VisibleNames(front, msId, queryCount, jmsIds);
    if c == cats[n] {
      forall t | t in v
        ensures t != CategoryNode(c, msId)
      {
        var d :| d in front && t == CategoryNode(d, msId);
        var i :| 0 <= i < n && front[i] == d;
        assert cats[i].name != cats[n].name;
      }
    } else {
      assert c in front by {
        var i :| 0 <= i < |cats| && cats[i] == c;
        assert front[i] == c;
      }
      VisibleExactly(front, msId, queryCount, jmsIds, c);
    }
  }

  /** Every node shown stands for a category of the list. */
  lemma {:induction false} VisibleNames(cats: seq<Category>, msId: string, queryCount: string -> nat, jmsIds: set<string>)
    ensures forall t :: t in VisibleCategories(cats, msId, queryCount, jmsIds) ==>
              exists c :: c in cats && t == CategoryNode(c, msId)
  {
    if cats != [] {
      var n := |cats| - 1;
      VisibleNames(cats[..n], msId, queryCount, jmsIds);
      forall t | t in VisibleCategories(cats, msId, queryCount, jmsIds)
        ensures exists c :: c in cats && t == CategoryNode(c, msId)
      {
        if t in VisibleCategories(cats[..n], msId, queryCount, jmsIds) {
          var c :| c in cats[..n] && t == CategoryNode(c, msId);
          assert c in cats;
        } else {
          assert t == CategoryNode(cats[n], msId);
        }
      }
    }
  }

  /** Under a microservice, a category of the table is listed exactly when its count is not
    * zero, and its node's id leads back to it. */
  lemma CategoryShown(c: Category, msId: string, queryCount: string -> nat, jmsIds: set<string>)
    requires c in ArchCategories
    ensures CategoryNode(c, msId) in VisibleCategories(ArchCategories, msId, queryCount, jmsIds)
            <==> CategoryCount(c.key, queryCount, jmsIds) != 0
    ensures ParseVirtual(CategoryNode(c, msId).id) == (if c.key == "jms" then JmsOf(msId) else QueryOf(c.key, msId))
  {
    CategoryNames();
    VisibleExactly(ArchCategories, msId, queryCount, jmsIds, c);
    VirtualIdRoundTrip(c, msId);
  }

  lemma CategoryNames()
    ensures forall i, j :: 0 <= i < j < |ArchCategories| ==> ArchCategories[i].name != ArchCategories[j].name
  {
  }

  /** `_get_ms_categories`: the loop appending a node for each category whose count is not zero. */
  method GetMsCategories(msId: string, queryCount: string -> nat, jmsIds: set<string>) returns (categories: seq<TreeNode>)
    ensures categories == VisibleCategories(ArchCategories, msId, queryCount, jmsIds)
  {
    categories := [];
    for i := 0 to |ArchCategories|
      invariant categories == VisibleCategories(ArchCategories[..i], msId, queryCount, jmsIds)
    {
      var cat := ArchCategories[i];
      assert ArchCategories[..i + 1][..i] == ArchCategories[..i];
      if CategoryCount(cat.key, queryCount, jmsIds) == 0 {
        continue;
      }
      categories := categories + [CategoryNode(cat, msId)];
    }
    assert ArchCategories[..|ArchCategories|] == ArchCategories;
  }

  // ---------------------------------------------------------------------------------------
  // JMS destinations of a microservice
  // ---------------------------------------------------------------------------------------

  /** A Python dict from id to node, in insertion order: a list with one node per id. */
  predicate UniqueIds(xs: seq<TreeNode>) {
    forall i, j :: 0 <= i < j < |xs| ==> xs[i].id != xs[j].id
  }

  function Ids(xs: seq<TreeNode>): set<string> {
    set i | 0 <= i < |xs| :: xs[i].id
  }

  /** Where the node with that id sits. */
  function Position(xs: seq<TreeNode>, id: string): (r: Option<nat>)
    ensures r.None? <==> id !in Ids(xs)
    ensures r.Some? ==> r.value < |xs| && xs[r.value].id == id && forall j :: 0 <= j < r.value ==> xs[j].id != id
  {
    if xs == [] then None
    else if xs[0].id == id then Some(0)
    else
      match Position(xs[1..], id)
      case None =>
        assert forall i :: 0 < i < |xs| ==> xs[i] == xs[1..][i - 1];
        None
      case Some(k) => Some(k + 1)
  }

  /** `d[x.id] = x`: replaces the node with that id in place, or appends it. */
  function Put(xs: seq<TreeNode>, x: TreeNode): seq<TreeNode> {
    match Position(xs, x.id)
    case None => xs + [x]
    case Some(i) => xs[i := x]
  }

  /** `d.setdefault(x.id, x)`: appends the node only when its id is new. */
  function SetDefault(xs: seq<TreeNode>, x: TreeNode): seq<TreeNode> {
    if x.id in Ids(xs) then xs else xs + [x]
  }

  /** `{r.id: r for r in rs}` */
  function ById(rs: seq<TreeNode>): seq<TreeNode> {
    if rs == [] then [] else Put(ById(rs[..|rs| - 1]), rs[|rs| - 1])
  }

  /** `for r in rs: d.setdefault(r.id, r)` */
  function WithDefaults(xs: seq<TreeNode>, rs: seq<TreeNode>): seq<TreeNode> {
    if rs == [] then xs else SetDefault(WithDefaults(xs, rs[..|rs| - 1]), rs[|rs| - 1])
  }

  /** The node a dict holds for an id. */
  function Entry(xs: seq<TreeNode>, id: string): Option<TreeNode> {
    match Position(xs, id)
    case None => None
    case Some(i) => Some(xs[i])
  }

  /** The last node of a list with that id. */
  function LastWith(rs: seq<TreeNode>, id: string): Option<TreeNode> {
    if rs == [] then None
    else if rs[|rs| - 1].id == id then Some(rs[|rs| - 1])
    else LastWith(rs[..|rs| - 1], id)
  }

  /** The first node of a list with that id. */
  function FirstWith(rs: seq<TreeNode>, id: string): Option<TreeNode> {
    if rs == [] then None
    else if rs[0].id == id then Some(rs[0])
    else FirstWith(rs[1..], id)
  }

  lemma IdsSnoc(xs: seq<TreeNode>, x: TreeNode)
    ensures Ids(xs + [x]) == Ids(xs) + {x.id}
  {
    var r := xs + [x];
    forall id | id in Ids(xs)
      ensures id in Ids(r)
    {
      var i :| 0 <= i < |xs| && xs[i].id == id;
      assert r[i].id == id;
    }
    assert r[|xs|].id == x.id;
    forall id | id in Ids(r)
      ensures id in Ids(xs) + {x.id}
    {
      var i :| 0 <= i < |r| && r[i].id == id;
      if i < |xs| {
        assert xs[i].id == id;
      }
    }
  }

  lemma PutFacts(xs: seq<TreeNode>, x: TreeNode)
    requires UniqueIds(xs)
    ensures UniqueIds(Put(xs, x)) && Ids(Put(xs, x)) == Ids(xs) + {x.id}
    ensures Entry(Put(xs, x), x.id) == Some(x)
    ensures forall id :: id != x.id ==> Entry(Put(xs, x), id) == Entry(xs, id)
  {
    var r := Put(xs, x);
    match Position(xs, x.id)
    case None =>
      IdsSnoc(xs, x);
      forall id | id != x.id
        ensures Entry(r, id) == Entry(xs, id)
      {
        EntryAppend(xs, x, id);
      }
      assert Position(r, x.id) == Some(|xs|);
    case Some(i) =>
      assert Ids(r) == Ids(xs) by {
        assert forall j :: 0 <= j < |r| ==> r[j].id == xs[j].id;
      }
      forall id | id != x.id
        ensures Entry(r, id) == Entry(xs, id)
      {
        EntryUnique(xs, id);
        EntryUnique(r, id);
      }
      EntryUnique(r, x.id);
  }

  /** In a list with unique ids, the entry for an id is the node at any place holding it. */
  lemma EntryUnique(xs: seq<TreeNode>, id: string)
    ensures UniqueIds(xs) ==> forall i :: 0 <= i < |xs| && xs[i].id == id ==> Entry(xs, id) == Some(xs[i])
  {
  }

  lemma EntryAppend(xs: seq<TreeNode>, x: TreeNode, id: string)
    requires id != x.id
    ensures Entry(xs + [x], id) == Entry(xs, id)
  {
    var r := xs + [x];
    match Position(xs, id)
    case None =>
      assert forall i :: 0 <= i < |r| ==> r[i].id != id;
    case Some(i) =>
      assert r[i] == xs[i];
      assert id in Ids(r);
      assert forall j :: 0 <= j < i ==> r[j] == xs[j];
  }

  /** The dict built from a list holds each of its ids once, with the last node of that id. */
  lemma {:induction false} ByIdFacts(rs: seq<TreeNode>)
    ensures UniqueIds(ById(rs)) && Ids(ById(rs)) == Ids(rs)
    ensures forall id :: Entry(ById(rs), id) == LastWith(rs, id)
  {
    if rs != [] {
      var n := |rs| - 1;
      ByIdFacts(rs[..n]);
      PutFacts(ById(rs[..n]), rs[n]);
      assert rs == rs[..n] + [rs[n]];
      IdsSnoc(rs[..n], rs[n]);
    }
  }

  lemma SetDefaultFacts(xs: seq<TreeNode>, x: TreeNode)
    requires UniqueIds(xs)
    ensures UniqueIds(SetDefault(xs, x)) && Ids(SetDefault(xs, x)) == Ids(xs) + {x.id}
    ensures forall id :: Entry(SetDefault(xs, x), id) == (if Entry(xs, id).Some? || id != x.id then Entry(xs, id) else Some(x))
  {
    if x.id !in Ids(xs) {
      var r := xs + [x];
      IdsSnoc(xs, x);
      forall id
        ensures Entry(r, id) == (if Entry(xs, id).Some? || id != x.id then Entry(xs, id) else Some(x))
      {
        if id != x.id {
          EntryAppend(xs, x, id);
        } else {
          assert Position(r, id) == Some(|xs|);
        }
      }
    }
  }

  /** The first node with an id, found from the back: the first of the front if it has one. */
  lemma FirstWithSnoc(rs: seq<TreeNode>, x: TreeNode, id: string)
    ensures FirstWith(rs + [x], id) == if FirstWith(rs, id).Some? then FirstWith(rs, id) else if x.id == id then Some(x) else None
    decreases |rs|
  {
    if rs != [] {
      assert (rs + [x])[1..] == rs[1..] + [x];
      FirstWithSnoc(rs[1..], x, id);
    }
  }

  /** Adding defaults keeps every id once; an id already present keeps its node, a new one gets
    * the first default with that id. */
  lemma {:induction false} WithDefaultsFacts(xs: seq<TreeNode>, rs: seq<TreeNode>)
    requires UniqueIds(xs)
    ensures UniqueIds(WithDefaults(xs, rs)) && Ids(WithDefaults(xs, rs)) == Ids(xs) + Ids(rs)
    ensures forall id :: Entry(WithDefaults(xs, rs), id) == if Entry(xs, id).Some? then Entry(xs, id) else FirstWith(rs, id)
  {
    if rs != [] {
      var n := |rs| - 1;
      WithDefaultsFacts(xs, rs[..n]);
      SetDefaultFacts(WithDefaults(xs, rs[..n]), rs[n]);
      assert rs == rs[..n] + [rs[n]];
      forall id
        ensures FirstWith(rs, id) == if FirstWith(rs[..n], id).Some? then FirstWith(rs[..n], id) else if rs[n].id == id then Some(rs[n]) else None
      {
        FirstWithSnoc(rs[..n], rs[n], id);
      }
      assert rs == rs[..n] + [rs[n]];
      IdsSnoc(rs[..n], rs[n]);
    }
  }

  /** The destinations reached by listeners, then those reached only by producers. */
  function Merged(listeners: seq<TreeNode>, producers: seq<TreeNode>): seq<TreeNode> {
    WithDefaults(ById(listeners), producers)
  }

  /** Each destination appears once; a destination reached by a listener is given as the
    * listener query returned it, one reached only by producers as the first producer row. */
  lemma MergedFacts(listeners: seq<TreeNode>, producers: seq<TreeNode>, id: string)
    ensures UniqueIds(Merged(listeners, producers))
    ensures Ids(Merged(listeners, producers)) == Ids(listeners) + Ids(producers)
    ensures Entry(Merged(listeners, producers), id) ==
              if LastWith(listeners, id).Some? then LastWith(listeners, id) else FirstWith(producers, id)
  {
    ByIdFacts(listeners);
    WithDefaultsFacts(ById(listeners), producers);
  }

  /** Ordered by name: no node's name is below an earlier one's. */
  predicate NameSorted(s: seq<TreeNode>) {
    forall i, j :: 0 <= i < j < |s| ==> !LexLess(s[j].name, s[i].name)
  }

  /** Every name of `s` is at or above `x`'s, when `x`'s is below the first of a sorted `s`. */
  lemma BelowAll(s: seq<TreeNode>, x: TreeNode)
    requires NameSorted(s) && s != [] && LexLess(x.name, s[0].name)
    ensures NameSorted([x] + s)
  {
    forall j | 0 <= j < |s|
      ensures !LexLess(s[j].name, x.name)
    {
      if LexLess(s[j].name, x.name) {
        LexTransitive(s[j].name, x.name, s[0].name);
        if j == 0 {
          LexIrreflexive(s[0].name);
        }
      }
    }
  }

  /** `x` put after every node whose name is not above its own. */
  function InsertByName(s: seq<TreeNode>, x: TreeNode): (r: seq<TreeNode>)
    requires NameSorted(s)
    ensures NameSorted(r) && multiset(r) == multiset(s) + multiset{x}
  {
    if s == [] then [x]
    else if LexLess(x.name, s[0].name) then
      BelowAll(s, x);
      [x] + s
    else
      var rest := InsertByName(s[1..], x);
      InsertedAfter(s, x, rest);
      [s[0]] + rest
  }

  /** Putting `s[0]` back in front of the insertion into the rest keeps the order. */
  lemma InsertedAfter(s: seq<TreeNode>, x: TreeNode, rest: seq<TreeNode>)
    requires NameSorted(s) && s != [] && !LexLess(x.name, s[0].name)
    requires NameSorted(rest) && multiset(rest) == multiset(s[1..]) + multiset{x}
    ensures NameSorted([s[0]] + rest) && multiset([s[0]] + rest) == multiset(s) + multiset{x}
  {
    assert s == [s[0]] + s[1..];
    forall j | 0 <= j < |rest|
      ensures !LexLess(rest[j].name, s[0].name)
    {
      assert rest[j] in multiset(rest);
      if rest[j] != x {
        assert rest[j] in s[1..];
      }
    }
  }

  /** `sorted(xs, key=lambda d: d["name"])`, as an insertion sort. */
  function SortByName(xs: seq<TreeNode>): (r: seq<TreeNode>)
    ensures NameSorted(r) && multiset(r) == multiset(xs)
  {
    if xs == [] then []
    else
      assert xs == xs[..|xs| - 1] + [xs[|xs| - 1]];
      InsertByName(SortByName(xs[..|xs| - 1]), xs[|xs| - 1])
  }

  /** Inserting a node adds its id, and a new id keeps the ids unique. */
  lemma {:induction false} InsertIds(s: seq<TreeNode>, x: TreeNode)
    requires NameSorted(s)
    ensures Ids(InsertByName(s, x)) == Ids(s) + {x.id}
    ensures UniqueIds(s) && x.id !in Ids(s) ==> UniqueIds(InsertByName(s, x))
  {
    if s == [] {
      assert Ids([x]) == {x.id} by {
        assert [x][0] == x;
      }
    } else if LexLess(x.name, s[0].name) {
      ConsIds(x, s);
    } else {
      var tail := s[1..];
      assert s == [s[0]] + tail;
      assert NameSorted(tail);
      var rest := InsertByName(tail, x);
      assert InsertByName(s, x) == [s[0]] + rest;
      InsertIds(tail, x);
      ConsIds(s[0], tail);
      ConsIds(s[0], rest);
    }
  }

  lemma ConsIds(x: TreeNode, s: seq<TreeNode>)
    ensures Ids([x] + s) == {x.id} + Ids(s)
    ensures UniqueIds([x] + s) <==> UniqueIds(s) && x.id !in Ids(s)
  {
    var r := [x] + s;
    assert forall i :: 0 <= i < |s| ==> r[i + 1] == s[i];
    assert r[0] == x;
    forall id | id in Ids(r)
      ensures id in {x.id} + Ids(s)
    {
      var i :| 0 <= i < |r| && r[i].id == id;
      if i > 0 {
        assert s[i - 1].id == id;
      }
    }
    if UniqueIds(r) {
      forall id | id in Ids(s)
        ensures id != x.id
      {
        var i :| 0 <= i < |s| && s[i].id == id;
        assert r[i + 1].id == id;
      }
    }
  }

  /** Sorting keeps the ids, and unique ids stay unique. */
  lemma {:induction false} SortIds(xs: seq<TreeNode>)
    ensures Ids(SortByName(xs)) == Ids(xs)
    ensures UniqueIds(xs) ==> UniqueIds(SortByName(xs))
  {
    if xs != [] {
      var init, x := xs[..|xs| - 1], xs[|xs| - 1];
      assert xs == init + [x];
      SortIds(init);
      InsertIds(SortByName(init), x);
      IdsSnoc(init, x);
      if UniqueIds(xs) {
        UniqueSnoc(init, x);
      }
    }
  }

  /** A list with unique ids ending in `x`: its front has unique ids, none of them `x`'s. */
  lemma UniqueSnoc(init: seq<TreeNode>, x: TreeNode)
    requires UniqueIds(init + [x])
    ensures UniqueIds(init) && x.id !in Ids(init)
  {
    var r := init + [x];
    assert forall i :: 0 <= i < |init| ==> r[i] == init[i];
    forall i | 0 <= i < |init|
      ensures init[i].id != x.id
    {
      assert r[i] == init[i] && r[|init|] == x;
    }
  }

  /** `_get_jms_for_ms`: the listener rows by id, the producer rows added where the id is new,
    * and the whole sorted by name. */
  method JmsForMs(listeners: seq<TreeNode>, producers: seq<TreeNode>) returns (r: seq<TreeNode>)
    ensures r == SortByName(Merged(listeners, producers))
  {
    var byId: seq<TreeNode> := [];
    for i := 0 to |listeners|
      invariant byId == ById(listeners[..i])
    {
      assert listeners[..i + 1][..i] == listeners[..i];
      byId := Put(byId, listeners[i]);
    }
    assert listeners[..|listeners|] == listeners;
    var merged := byId;
    for i := 0 to |producers|
      invariant merged == WithDefaults(byId, producers[..i])
    {
      assert producers[..i + 1][..i] == producers[..i];
      merged := SetDefault(merged, producers[i]);
    }
    assert producers[..|producers|] == producers;
    r := SortByName(merged);
  }

  /** The destinations listed are sorted by name, each id once, and are exactly the merged
    * ones. */
  lemma JmsListed(listeners: seq<TreeNode>, producers: seq<TreeNode>)
    ensures var r := SortByName(Merged(listeners, producers));
            && NameSorted(r) && UniqueIds(r)
            && multiset(r) == multiset(Merged(listeners, producers))
            && Ids(r) == Ids(listeners) + Ids(producers)
  {
    MergedFacts(listeners, producers, "");
    SortIds(Merged(listeners, producers));
  }
}
