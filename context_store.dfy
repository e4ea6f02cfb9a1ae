/** The context routes of backend/app/routers/contexts.py over the context files, here a map
  * from context name to file held by a `Contexts` object: each route reads a context, changes
  * it in place and writes it back, or answers with an HTTP error and writes nothing. */
module ContextStore {
  import opened Wrappers
  import opened Strs
  import opened ContextModel
  import opened ContextItems
  import opened ContextMixins
  import opened Reachability

  function NotFound(name: string): HttpError {
    HttpError(404, "Context '" + name + "' not found")
  }

  function ChildNotFound(child: string): HttpError {
    HttpError(404, "Sub-context '" + child + "' not found")
  }

  /** The list a request's optional child name selects: the parent's items when the name is
    * absent or empty (Python truthiness), else the first child of that name, which `_get_child`
    * answers with a 404 when there is none. */
  function ListOf(ctx: Context, child: Option<string>): (r: Result<ListRef, HttpError>)
    ensures r.Ok? ==> ValidList(ctx, r.value)
    ensures r.Ok? && r.value.ParentList? <==> child.None? || child.value == ""
    ensures r.Ok? && r.value.ChildList? ==> child.Some? && ctx.children[r.value.k].name == child.value
    ensures r.Err? <==> child.Some? && child.value != "" && forall k :: 0 <= k < |ctx.children| ==> ctx.children[k].name != child.value
  {
    if child.None? || child.value == "" then Ok(ParentList)
    else match FindChild(ctx.children, child.value)
      case None => Err(ChildNotFound(child.value))
      case Some(k) => Ok(ChildList(k))
  }

  /** Two child lists with the same names select the same child. */
  lemma FindChildSameNames(cs: seq<Child>, cs': seq<Child>, name: string)
    requires |cs'| == |cs| && forall k :: 0 <= k < |cs| ==> cs'[k].name == cs[k].name
    ensures FindChild(cs', name) == FindChild(cs, name)
  {
  }

  // ---------------------------------------------------------------------------------------
  // _resolve_item
  // ---------------------------------------------------------------------------------------

  /** An item read from the Jira/Confluence cache or the configured repositories: `lookup` is
    * what that lookup found (the title and label) or the error it raised. */
  function Looked(kind: string, id: string, lookup: Result<(string, string), HttpError>): (r: Result<Item, HttpError>)
    ensures r.Ok? <==> lookup.Ok?
    ensures r.Ok? ==> r.value == Item(kind, id, lookup.value.0, lookup.value.1, "")
    ensures r.Err? ==> r.error == lookup.error
  {
    match lookup
    case Ok((title, labelText)) => Ok(Item(kind, id, title, labelText, ""))
    case Err(e) => Err(e)
  }

  /** `_resolve_item`: the item an `add_item` request becomes, by type. A Jira key needs a `-`
    * and a repository file id a `:` before anything is looked up; instructions need no lookup,
    * and carry the request's text (empty when it has none), a mixin is resolved against the
    * files, and an unknown type is refused. */
  function ResolveItem(files: Files, kind: string, id: string, text: Option<string>,
                       lookup: Result<(string, string), HttpError>): (r: Result<Item, HttpError>)
    ensures r.Ok? ==> r.value.kind == kind && r.value.id == id
    ensures kind !in {"confluence_page", "jira_issue", "instructions", "git_repo", "repo_file", "mixin"} ==> r.Err? && r.error.status == 400
    ensures kind == "jira_issue" && '-' !in id ==> r.Err? && r.error.status == 400
    ensures kind == "repo_file" && ':' !in id ==> r.Err? && r.error.status == 400
    ensures kind == "instructions" ==> r == Ok(Item("instructions", id, "Instructions", id, text.GetOr("")))
    ensures kind == "mixin" ==> r == ResolveMixin(files, id)
  {
    if kind == "confluence_page" || kind == "git_repo" then Looked(kind, id, lookup)
    else if kind == "jira_issue" then
      if '-' !in id then Err(HttpError(400, "Invalid issue key format: " + id)) else Looked(kind, id, lookup)
    else if kind == "instructions" then Ok(Item("instructions", id, "Instructions", id, text.GetOr("")))
    else if kind == "repo_file" then
      if ':' !in id then Err(HttpError(400, "repo_file id must be 'repo_name:relative/path'")) else Looked(kind, id, lookup)
    else if kind == "mixin" then ResolveMixin(files, id)
    else Err(HttpError(400, "Unknown item type: " + kind))
  }

  /** The label override of a request. */
  function Labeled(it: Item, labelText: Option<string>): (r: Item)
    ensures Key(r) == Key(it) && r.title == it.title && r.text == it.text
    ensures r.labelText == labelText.GetOr(it.labelText)
  {
    match labelText
    case Some(l) => it.(labelText := l)
    case None => it
  }

  // ---------------------------------------------------------------------------------------
  // add_item
  // ---------------------------------------------------------------------------------------

  /** Some path `name` or `name/...` is reachable from `target`: appending a mixin of `target`
    * to `name` would close a cycle. */
  ghost predicate ParentCycle(files: Files, name: string, target: string) {
    exists x :: SplitPath(x).0 == name && Reachable(Succ(files), target, x)
  }

  /** Why `add_item` refuses a non-empty id for an existing context, in the order it checks:
    * the (type, id) is already there and it is not an instruction, or a mixin is the context
    * itself or closes a cycle. */
  ghost function Refusal(files: Files, name: string, kind: string, id: string): Option<HttpError>
    requires name in files
  {
    if kind != "instructions" && Has(Normalized(files[name]).items, ItemRef(kind, id)) then
      Some(HttpError(409, "Item already in context"))
    else if kind == "mixin" && id == name then Some(HttpError(400, "Cannot mixin a context into itself"))
    else if kind == "mixin" && ParentCycle(files, name, id) then
      Some(HttpError(400, "Adding this mixin would create a circular reference"))
    else None
  }

  /** What `add_item` answers: 404 for a missing context, 400 for an empty stripped id, then
    * its refusals, then the resolved item with its label overridden. */
  ghost function AddItemOutcome(files: Files, name: string, kind: string, rawId: string, labelText: Option<string>,
                                text: Option<string>, lookup: Result<(string, string), HttpError>): Result<Item, HttpError>
  {
    var id := Strip(rawId);
    if name !in files then Err(NotFound(name))
    else if id == "" then Err(HttpError(400, "Item ID is required"))
    else if Refusal(files, name, kind, id).Some? then Err(Refusal(files, name, kind, id).value)
    else match ResolveItem(files, kind, id, text, lookup)
      case Err(e) => Err(e)
      case Ok(it) => Ok(Labeled(it, labelText))
  }

  /** An added item has the requested type and the stripped id; it duplicates no item unless it
    * is an instruction; a mixin names an existing context other than this one and reaches no
    * path of it. */
  lemma AddItemAccepted(files: Files, name: string, kind: string, rawId: string, labelText: Option<string>,
                        text: Option<string>, lookup: Result<(string, string), HttpError>)
    requires AddItemOutcome(files, name, kind, rawId, labelText, text, lookup).Ok?
    ensures var it := AddItemOutcome(files, name, kind, rawId, labelText, text, lookup).value;
            && name in files && it.kind == kind && it.id == Strip(rawId) && it.id != ""
            && (kind != "instructions" ==> !Has(Normalized(files[name]).items, Key(it)))
            && (kind == "instructions" ==> it.text == text.GetOr(""))
            && (kind == "mixin" ==>
                  it.id != name && SplitPath(it.id).0 in files
                  && forall x :: SplitPath(x).0 == name ==> !Reachable(Succ(files), it.id, x))
  {
    var id := Strip(rawId);
    assert name in files && id != "" && Refusal(files, name, kind, id).None?;
    RefusalNone(files, name, kind, id);
    var r := ResolveItem(files, kind, id, text, lookup);
    assert r.Ok? && AddItemOutcome(files, name, kind, rawId, labelText, text, lookup) == Ok(Labeled(r.value, labelText));
  }

  /** What passing the checks of `add_item` means. */
  lemma RefusalNone(files: Files, name: string, kind: string, id: string)
    requires name in files && Refusal(files, name, kind, id).None?
    ensures kind != "instructions" ==> !Has(Normalized(files[name]).items, ItemRef(kind, id))
    ensures kind == "mixin" ==> id != name && forall x :: SplitPath(x).0 == name ==> !Reachable(Succ(files), id, x)
  {
    if kind == "mixin" {
      assert !ParentCycle(files, name, id);
    }
  }

  /** `add_item` never closes a mixin cycle: when the graph had none, it has none after. */
  lemma AddItemKeepsAcyclic(files: Files, name: string, kind: string, rawId: string, labelText: Option<string>,
                            text: Option<string>, lookup: Result<(string, string), HttpError>)
    requires Acyclic(Succ(files))
    requires AddItemOutcome(files, name, kind, rawId, labelText, text, lookup).Ok?
    ensures Acyclic(Succ(WithItem(files, name, AddItemOutcome(files, name, kind, rawId, labelText, text, lookup).value)))
  {
    var it := AddItemOutcome(files, name, kind, rawId, labelText, text, lookup).value;
    AddItemAccepted(files, name, kind, rawId, labelText, text, lookup);
    WithItemKeepsAcyclic(files, name, it);
  }

  /** The checks of `add_item` on the context as read. */
  method Refuse(files: Files, name: string, kind: string, id: string, ctx: Context) returns (refusal: Option<HttpError>)
    requires name in files && ctx == Normalized(files[name])
    ensures refusal == Refusal(files, name, kind, id)
  {
    if kind != "instructions" {
      var k := FindItem(ctx.items, ItemRef(kind, id));
      if k.Some? {
        return Some(HttpError(409, "Item already in context"));
      }
    }
    if kind == "mixin" {
      if id == name {
        return Some(HttpError(400, "Cannot mixin a context into itself"));
      }
      var cycle := DetectParentCycle(files, name, id);
      if cycle {
        return Some(HttpError(400, "Adding this mixin would create a circular reference"));
      }
    }
    return None;
  }

  // ---------------------------------------------------------------------------------------
  // move_item
  // ---------------------------------------------------------------------------------------

  /** What `move_item` answers on the context as read: the source list must exist and hold
    * the item, and the destination list must exist (it is looked up after the pop, but a pop
    * does not change the children's names). */
  function MoveOutcome(ctx: Context, r: ItemRef, fromChild: Option<string>, toChild: Option<string>, toIndex: int): Result<Context, HttpError> {
    match ListOf(ctx, fromChild)
    case Err(e) => Err(e)
    case Ok(from) =>
      if !Has(GetList(ctx, from), r) then Err(HttpError(404, "Item not found in source"))
      else match ListOf(ctx, toChild)
        case Err(e) => Err(e)
        case Ok(to) =>
          match Moved(ctx, r, from, to, toIndex)
          case Some(c) => Ok(c)
          case None => Err(HttpError(404, "Item not found in source"))
  }

  /** A move succeeds exactly when both lists exist and the source holds the item; it keeps
    * every item of the context (so their number), the names, and puts the first item of that
    * (type, id) in the source at the requested place of the destination as it is after the
    * pop: at `toIndex` when that is within it, otherwise at its end. */
  lemma MoveOutcomeFacts(ctx: Context, r: ItemRef, fromChild: Option<string>, toChild: Option<string>, toIndex: int)
    ensures var m := MoveOutcome(ctx, r, fromChild, toChild, toIndex);
            m.Ok? <==> ListOf(ctx, fromChild).Ok? && Has(GetList(ctx, ListOf(ctx, fromChild).value), r) && ListOf(ctx, toChild).Ok?
    ensures var m := MoveOutcome(ctx, r, fromChild, toChild, toIndex);
            ListOf(ctx, fromChild).Ok? && !Has(GetList(ctx, ListOf(ctx, fromChild).value), r) ==>
              m == Err(HttpError(404, "Item not found in source"))
    ensures var m := MoveOutcome(ctx, r, fromChild, toChild, toIndex);
            m.Ok? ==>
              var from, to := ListOf(ctx, fromChild).value, ListOf(ctx, toChild).value;
              var src := GetList(ctx, from);
              var k := FirstMatch(src, r).value;
              var dst := GetList(SetList(ctx, from, Pop(src, k)), to);
              && multiset(AllItems(m.value)) == multiset(AllItems(ctx)) && |AllItems(m.value)| == |AllItems(ctx)|
              && m.value.name == ctx.name && |m.value.children| == |ctx.children|
              && Key(src[k]) == r
              && GetList(m.value, to) == InsertAt(dst, toIndex, src[k])
              && (0 <= toIndex < |dst| ==> GetList(m.value, to)[toIndex] == src[k])
              && (!(0 <= toIndex < |dst|) ==> GetList(m.value, to)[|dst|] == src[k])
  {
    match ListOf(ctx, fromChild)
    case Err(_) =>
    case Ok(from) =>
      match ListOf(ctx, toChild)
      case Err(_) =>
      case Ok(to) =>
        MovedFacts(ctx, r, from, to, toIndex);
        if Has(GetList(ctx, from), r) {
          var src := GetList(ctx, from);
          var k := FirstMatch(src, r).value;
          var dst := GetList(SetList(ctx, from, Pop(src, k)), to);
          PopInsertFacts(src, k, dst, toIndex, src[k]);
        }
  }

  /** Reading a context gives every child its placeholder; appending a child that has one keeps
    * that so, and the file written reads back unchanged: a new child has exactly the one
    * placeholder it was given. */
  lemma AddChildReadBack(ctx: Context, child: string)
    requires Normal(ctx)
    ensures var ctx' := ctx.(children := ctx.children + [Child(child, [Placeholder])]);
            Normal(ctx') && Normalized(Stored(ctx')) == ctx'
            && Normalized(Stored(ctx')).children[|ctx.children|].items == [Placeholder]
  {
    var ctx' := ctx.(children := ctx.children + [Child(child, [Placeholder])]);
    assert HasParent([Placeholder]) by {
      assert [Placeholder][0].kind == "parent";
    }
    assert Normal(ctx');
    ReadWritten(ctx');
  }

  /** Removing a child item of any type but `parent` keeps the child's placeholder, so the
    * file written reads back unchanged. */
  lemma RemoveChildItemReadBack(ctx: Context, k: nat, r: ItemRef)
    requires Normal(ctx) && k < |ctx.children| && r.kind != "parent"
    ensures var ctx' := SetList(ctx, ChildList(k), Without(ctx.children[k].items, r));
            Normal(ctx') && Normalized(Stored(ctx')) == ctx'
  {
    var ctx' := SetList(ctx, ChildList(k), Without(ctx.children[k].items, r));
    WithoutKeepsParent(ctx.children[k].items, r);
    assert Normal(ctx');
    ReadWritten(ctx');
  }

  // ---------------------------------------------------------------------------------------
  // The cycle guard of add_item as written
  // ---------------------------------------------------------------------------------------

  /** Two contexts: `A` with a child `c` holding only its placeholder, and `B` whose one item is
    * a mixin of `A/c`. */
  function CycleExample(): Files {
    map["A" := StoredContext("A", Some([]), Some([StoredChild("c", Some([Placeholder]))])),
        "B" := StoredContext("B", Some([Item("mixin", "A/c", "c", "c", "")]), Some([]))]
  }

  /** The two paths of the example split as their names say. */
  lemma ExamplePaths()
    ensures SplitPath("A/c") == ("A", Some("c"))
    ensures SplitPath("B") == ("B", None)
  {
    ChildPathSplits("A", "c");
    assert ChildPath("A", "c") == "A/c";
    assert '/' !in "B";
  }

  lemma PlaceholderNoMixins()
    ensures MixinIds([Placeholder]) == [] && MixinIds([]) == []
  {
    assert [Placeholder][..0] == [];
  }

  /** In the example a path under `A` walks `A`'s empty items and at most the placeholder of
    * `c`. */
  lemma ExampleWalkA(p: string)
    requires SplitPath(p).0 == "A"
    ensures WalkItems(CycleExample(), p) == [] || WalkItems(CycleExample(), p) == [Placeholder]
  {
    var f := CycleExample();
    var cs := [StoredChild("c", Some([Placeholder]))];
    assert f["A"].items.GetOr([]) == [] && f["A"].children.GetOr([]) == cs;
    match ChildPart(p)
    case None =>
    case Some(c) =>
      if c == "c" {
        assert FindStoredChild(cs, c) == Some(cs[0]);
        assert [] + [Placeholder] == [Placeholder];
      } else {
        assert FindStoredChild(cs, c) == None;
      }
  }

  /** So a path under `A` has no successor. */
  lemma ExampleSuccA(p: string)
    requires SplitPath(p).0 == "A"
    ensures Succ(CycleExample())(p) == []
  {
    ExampleWalkA(p);
    PlaceholderNoMixins();
    assert Succ(CycleExample())(p) == MixinIds(WalkItems(CycleExample(), p));
  }

  /** A path under `B` walks `B`'s one item, a mixin of `A/c` (`B` has no children). */
  lemma ExampleSuccB(p: string)
    requires SplitPath(p).0 == "B"
    ensures Succ(CycleExample())(p) == ["A/c"]
  {
    var f := CycleExample();
    var it := Item("mixin", "A/c", "c", "c", "");
    assert f["B"] == StoredContext("B", Some([it]), Some([]));
    assert WalkItems(f, p) == [it];
    assert MixinIds([it]) == ["A/c"] by {
      assert [it][..0] == [];
    }
    assert Succ(f)(p) == MixinIds(WalkItems(f, p));
  }

  /** A path under any other name has no file to walk. */
  lemma ExampleSuccOther(p: string)
    requires SplitPath(p).0 != "A" && SplitPath(p).0 != "B"
    ensures Succ(CycleExample())(p) == []
  {
    var f := CycleExample();
    assert f.Keys == {"A", "B"};
    assert SplitPath(p).0 !in f;
    assert WalkItems(f, p) == [];
    assert Succ(f)(p) == MixinIds([]);
  }

  /** Every path under `B` has the one successor `A/c`; every other path none. */
  lemma ExampleSucc(p: string)
    ensures Succ(CycleExample())(p) == if SplitPath(p).0 == "B" then ["A/c"] else []
  {
    var parent := SplitPath(p).0;
    if parent == "B" {
      ExampleSuccB(p);
    } else if parent == "A" {
      ExampleSuccA(p);
    } else {
      ExampleSuccOther(p);
    }
  }

  /** A graph where `a` steps only to `b` and `b` nowhere: walks from `b` stay at `b`, and
    * walks from `a` stay within the two. */
  lemma OneStepClosed(succ: string -> seq<string>, a: string, b: string)
    requires succ(a) == [b] && succ(b) == []
    ensures Closed(succ, {b}) && Closed(succ, {a, b})
  {
  }

  /** Nothing outside a closed set is reachable from inside it. */
  lemma LeavesNoClosedSet(succ: string -> seq<string>, v: set<string>, a: string, b: string)
    requires Closed(succ, v) && a in v && b !in v
    ensures !Reachable(succ, a, b)
  {
    if Reachable(succ, a, b) {
      ClosedContainsReachable(succ, v, a, b);
    }
  }

  /** From `A/c` the walk stays at `A/c`, and from `B` it stays within `B` and `A/c`. */
  lemma ExampleClosed()
    ensures Closed(Succ(CycleExample()), {"A/c"})
    ensures Closed(Succ(CycleExample()), {"B", "A/c"})
  {
    ExamplePaths();
    ExampleSuccA("A/c");
    ExampleSuccB("B");
    OneStepClosed(Succ(CycleExample()), "B", "A/c");
  }

  /** A graph whose every step ends at one node without successors has no cycle. */
  lemma SinkAcyclic(succ: string -> seq<string>, sink: string)
    requires succ(sink) == []
    requires forall p, q :: q in succ(p) ==> q == sink
    ensures Acyclic(succ)
  {
    assert Closed(succ, {sink});
    forall p, q | q in succ(p)
      ensures !Reachable(succ, q, p)
    {
      LeavesNoClosedSet(succ, {sink}, q, p);
    }
  }

  /** The example graph has no cycle: every step ends at `A/c`, which has no successor. */
  lemma ExampleAcyclic()
    ensures Acyclic(Succ(CycleExample()))
  {
    ExampleGraph();
  }

  /** The example's mixin graph: `B` steps to `A/c`, and nothing else steps anywhere; so it has
    * no cycle, and the walk from `B` never meets `A`. */
  lemma ExampleGraph()
    ensures Acyclic(Succ(CycleExample())) && !Reachable(Succ(CycleExample()), "B", "A")
  {
    ExampleSuccAll(Succ(CycleExample()));
    ExamplePaths();
    SinkGraph(Succ(CycleExample()));
  }

  lemma ExampleSuccAll(succ: string -> seq<string>)
    requires succ == Succ(CycleExample())
    ensures forall p :: succ(p) == if SplitPath(p).0 == "B" then ["A/c"] else []
  {
    forall p
      ensures succ(p) == if SplitPath(p).0 == "B" then ["A/c"] else []
    {
      ExampleSucc(p);
    }
  }

  /** A graph of that shape, whatever its origin. */
  lemma SinkGraph(succ: string -> seq<string>)
    requires forall p :: succ(p) == if SplitPath(p).0 == "B" then ["A/c"] else []
    requires SplitPath("A/c").0 == "A" && SplitPath("B").0 == "B"
    ensures Acyclic(succ) && !Reachable(succ, "B", "A")
  {
    assert succ("A/c") == [] && succ("B") == ["A/c"];
    SinkAcyclic(succ, "A/c");
    OneStepClosed(succ, "B", "A/c");
    assert "A" != "B" && "A" != "A/c";
    LeavesNoClosedSet(succ, {"B", "A/c"}, "B", "A");
  }

  /** The walk from `B` never meets the path `A` itself. */
  lemma ExampleMissesA()
    ensures !Reachable(Succ(CycleExample()), "B", "A")
  {
    ExampleGraph();
  }

  /** `add_item("A", mixin "B")` asks `_detect_cycle("A", "B")`, which walks from `B` looking
    * for the path `A` alone: it meets `A/c`, whose placeholder stands for `A`'s items, and
    * stops there. So the walk as written (`DetectCycle`) lets the item through, although the
    * graph is acyclic before and cyclic after (`A/c` to `B` to `A/c`); the corrected walk
    * (`DetectParentCycle`, used by `AddItem`) refuses it. */
  lemma ParentCycleMissed()
    ensures var f := CycleExample();
            && Acyclic(Succ(f))
            && !Reachable(Succ(f), "B", "A")
            && ParentCycle(f, "A", "B")
            && !Acyclic(Succ(WithItem(f, "A", Item("mixin", "B", "B", "B", ""))))
  {
    var f := CycleExample();
    ExampleAcyclic();
    ExampleMissesA();
    ExamplePaths();
    ExampleSucc("B");
    ReachableSelf(Succ(f), "B");
    ReachableStep(Succ(f), "B", "B", "A/c");
    var f' := WithItem(f, "A", Item("mixin", "B", "B", "B", ""));
    SuccWithItem(f, "A", Item("mixin", "B", "B", "B", ""));
    ReachableSelf(Succ(f'), "A/c");
    ReachableStep(Succ(f'), "A/c", "A/c", "B");
    assert "A/c" in Succ(f')("B");
  }

  // ---------------------------------------------------------------------------------------
  // delete_context and rename_context
  // ---------------------------------------------------------------------------------------

  /** Some of the paths is used as a mixin. */
  predicate AnyMentioned(files: Files, ps: seq<string>) {
    exists i :: 0 <= i < |ps| && ps[i] in Mentioned(files)
  }

  /** After a deletion none of the context's paths is mentioned, and every other mention of the
    * remaining files is kept: the forced deletion drops the paths' mixins first, and without
    * it nothing mentioned them. */
  lemma DeleteForgetsPaths(files: Files, name: string, ps: seq<string>, used: bool)
    requires used || !AnyMentioned(files, ps)
    ensures forall x :: x in Mentioned((if used then DropAll(files, ps) else files) - {name}) <==>
                          x in Mentioned(files - {name}) && x !in ps
  {
    if used {
      DropAllWithout(files, ps, name);
      MentionedDropAll(files - {name}, ps);
    } else {
      MentionedWithout(files, name);
    }
  }

  /** The usage scan of `delete_context`: `_find_mixin_usages` for each path in turn. */
  method FindUsed(files: Files, ps: seq<string>) returns (used: bool)
    ensures used == AnyMentioned(files, ps)
  {
    used := false;
    for i := 0 to |ps|
      invariant used <==> exists j :: 0 <= j < i && ps[j] in Mentioned(files)
    {
      UsagesIffMentioned(files, ps[i]);
      if Usages(files, ps[i]) != {} {
        used := true;
      }
    }
  }

  /** The forced removal of `delete_context`: `_remove_mixin_references` for each path in turn. */
  method RemoveAllReferences(files: Files, ps: seq<string>) returns (rest: Files)
    ensures rest == DropAll(files, ps)
  {
    rest := files;
    for i := 0 to |ps|
      invariant rest == DropAll(files, ps[..i])
    {
      DropAllStep(files, ps, i);
      rest := RemoveMixinReferences(rest, ps[i]);
    }
    assert ps[..|ps|] == ps;
  }

  function InUse(name: string): HttpError {
    HttpError(409, "Context '" + name + "' is referenced as a mixin by other contexts")
  }

  /** Renaming a context moves every mention of it and of its children to the new paths and
    * leaves no mention of an old path, when neither name holds a `/`: the new file mentions what
    * the old one did, and the rewrites in order rename each old path. */
  lemma RenameMovesMentions(files: Files, name: string, newName: string)
    requires name in files && newName !in files && '/' !in name && '/' !in newName
    ensures var ctx := Normalized(files[name]).(name := newName);
            var olds, news := ContextPaths(name, ctx.children), ContextPaths(newName, ctx.children);
            forall x :: x in Mentioned(RetargetAll(files[newName := Stored(ctx)] - {name}, olds, news)) <==>
                          (x in Mentioned(files) && x !in olds)
                          || exists i :: 0 <= i < |olds| && news[i] == x && olds[i] in Mentioned(files)
  {
    var ctx := Normalized(files[name]).(name := newName);
    var olds, news := ContextPaths(name, ctx.children), ContextPaths(newName, ctx.children);
    var g := files[newName := Stored(ctx)] - {name};
    StoredMixins(files[name], newName);
    MentionedMoved(files, name, newName, Stored(ctx));
    MentionedRetargetAll(g, olds, news);
    ContextPathsApart(name, newName, ctx.children);
    forall x
      ensures x in Mentioned(RetargetAll(g, olds, news)) <==>
                (x in Mentioned(files) && x !in olds)
                || exists i :: 0 <= i < |olds| && news[i] == x && olds[i] in Mentioned(files)
    {
      RenamedAllMembers(Mentioned(files), olds, news, x);
    }
  }

  /** The reference updates of `rename_context`: the context's own path, then each child's
    * path, moved from the old name to the new one. */
  method RetargetRenamed(moved: Files, name: string, newName: string, children: seq<Child>) returns (f: Files)
    ensures f == RetargetAll(moved, ContextPaths(name, children), ContextPaths(newName, children))
  {
    var olds, news := ContextPaths(name, children), ContextPaths(newName, children);
    f := UpdateMixinReferences(moved, name, newName);
    assert olds[..1] == [name] && news[..1] == [newName];
    for k := 0 to |children|
      invariant f == RetargetAll(moved, olds[..k + 1], news[..k + 1])
    {
      RetargetAllStep(moved, olds, news, k);
      f := UpdateMixinReferences(f, ChildPath(name, children[k].name), ChildPath(newName, children[k].name));
    }
    assert olds[..|children| + 1] == olds && news[..|children| + 1] == news;
  }

  /** The contexts: `files[name]` is the file `<name>.json` of the contexts directory. */
  class Contexts {
    var files: Files

    constructor(files: Files)
      ensures this.files == files
    {
      this.files := files;
    }

    /** `get_context`: the context as read, or 404. */
    method GetContext(name: string) returns (r: Result<Context, HttpError>)
      ensures r.Ok? <==> name in files
      ensures r.Ok? ==> r.value == Normalized(files[name]) && Normal(r.value)
      ensures r.Err? ==> r.error == NotFound(name)
    {
      if name !in files {
        return Err(NotFound(name));
      }
      var ctx := ReadContext(files[name]);
      return Ok(ctx);
    }

    /** `add_context`: a new empty context under the stripped name, refused when the name is
      * empty or taken. */
    method AddContext(rawName: string) returns (r: Result<Context, HttpError>)
      modifies this
      ensures var name := Strip(rawName);
              && (name == "" ==> r == Err(HttpError(400, "Name is required")))
              && (name != "" && name in old(files) ==> r == Err(HttpError(409, "Context '" + name + "' already exists")))
              && (name != "" && name !in old(files) ==>
                    r == Ok(Context(name, [], [])) && files == old(files)[name := Stored(r.value)])
      ensures r.Err? ==> files == old(files)
    {
      var name := Strip(rawName);
      if name == "" {
        return Err(HttpError(400, "Name is required"));
      }
      if name in files {
        return Err(HttpError(409, "Context '" + name + "' already exists"));
      }
      var ctx := Context(name, [], []);
      files := files[name := Stored(ctx)];
      return Ok(ctx);
    }

    /** `add_item`: appends the resolved item, with its label overridden when one is given,
      * to the context's items. The mixin cycle check is `DetectParentCycle`. */
    method AddItem(name: string, kind: string, rawId: string, labelText: Option<string>,
                   text: Option<string>, lookup: Result<(string, string), HttpError>) returns (r: Result<Item, HttpError>)
      modifies this
      ensures r == AddItemOutcome(old(files), name, kind, rawId, labelText, text, lookup)
      ensures r.Ok? ==> files == WithItem(old(files), name, r.value)
      ensures r.Err? ==> files == old(files)
    {
      if name !in files {
        return Err(NotFound(name));
      }
      var id := Strip(rawId);
      if id == "" {
        return Err(HttpError(400, "Item ID is required"));
      }
      var ctx := ReadContext(files[name]);
      var refusal := Refuse(files, name, kind, id, ctx);
      if refusal.Some? {
        return Err(refusal.value);
      }
      var resolved := ResolveItem(files, kind, id, text, lookup);
      if resolved.Err? {
        return Err(resolved.error);
      }
      var it := Labeled(resolved.value, labelText);
      ctx := ctx.(items := ctx.items + [it]);
      files := files[name := Stored(ctx)];
      return Ok(it);
    }

    /** `reorder_items`: the context's items as `Reorder` leaves them. */
    method ReorderItems(name: string, refs: seq<ItemRef>) returns (r: Result<Context, HttpError>)
      modifies this
      ensures r.Ok? <==> name in old(files)
      ensures r.Ok? ==> var ctx := Normalized(old(files)[name]);
                        r.value == ctx.(items := Reordered(ctx.items, refs)) && files == old(files)[name := Stored(r.value)]
      ensures r.Err? ==> r.error == NotFound(name) && files == old(files)
    {
      if name !in files {
        return Err(NotFound(name));
      }
      var ctx := ReadContext(files[name]);
      var items := Reorder(ctx.items, refs);
      ctx := ctx.(items := items);
      files := files[name := Stored(ctx)];
      return Ok(ctx);
    }

    /** `remove_item`: drops every item of that (type, id) from the context's items; 404 when
      * there was none, and then nothing is written. */
    method RemoveItem(name: string, kind: string, id: string) returns (r: Result<(), HttpError>)
      modifies this
      ensures r.Ok? <==> name in old(files) && Has(Normalized(old(files)[name]).items, ItemRef(kind, id))
      ensures r.Ok? ==> var ctx := Normalized(old(files)[name]);
                        files == old(files)[name := Stored(ctx.(items := Without(ctx.items, ItemRef(kind, id))))]
      ensures r.Err? ==> files == old(files)
      ensures r.Err? ==> r.error == if name in old(files) then HttpError(404, "Item not found in context") else NotFound(name)
    {
      if name !in files {
        return Err(NotFound(name));
      }
      var ctx := ReadContext(files[name]);
      var items := Without(ctx.items, ItemRef(kind, id));
      WithoutFacts(ctx.items, ItemRef(kind, id));
      if |items| == |ctx.items| {
        return Err(HttpError(404, "Item not found in context"));
      }
      ctx := ctx.(items := items);
      files := files[name := Stored(ctx)];
      return Ok(());
    }

    /** `move_item`: pops the first item of that (type, id) from the source list and inserts
      * it into the destination list, at `toIndex` when that is within the list and at its end
      * otherwise; an empty or absent child name means the parent's items. */
    method MoveItem(name: string, kind: string, id: string, fromChild: Option<string>, toChild: Option<string>, toIndex: int)
      returns (r: Result<Context, HttpError>)
      modifies this
      ensures name !in old(files) ==> r == Err(NotFound(name))
      ensures name in old(files) ==> r == MoveOutcome(Normalized(old(files)[name]), ItemRef(kind, id), fromChild, toChild, toIndex)
      ensures r.Ok? ==> files == old(files)[name := Stored(r.value)]
      ensures r.Err? ==> files == old(files)
    {
      if name !in files {
        return Err(NotFound(name));
      }
      var ctx := ReadContext(files[name]);
      var from := ListOf(ctx, fromChild);
      if from.Err? {
        return Err(from.error);
      }
      var src := GetList(ctx, from.value);
      var k := FindItem(src, ItemRef(kind, id));
      if k.None? {
        return Err(HttpError(404, "Item not found in source"));
      }
      var item := src[k.value];
      var mid := SetList(ctx, from.value, Pop(src, k.value));
      FindChildSameNames(ctx.children, mid.children, toChild.GetOr(""));
      var to := ListOf(mid, toChild);
      if to.Err? {
        return Err(to.error);
      }
      var dst := GetList(mid, to.value);
      ctx := SetList(mid, to.value, InsertAt(dst, toIndex, item));
      files := files[name := Stored(ctx)];
      return Ok(ctx);
    }

    /** `add_child`: a new child under the stripped name holding just the placeholder. */
    method AddChild(name: string, rawChild: string) returns (r: Result<Child, HttpError>)
      modifies this
      ensures r.Ok? <==> name in old(files) && Strip(rawChild) != ""
                         && FindChild(Normalized(old(files)[name]).children, Strip(rawChild)).None?
      ensures r.Ok? ==> var ctx := Normalized(old(files)[name]);
                        r.value == Child(Strip(rawChild), [Placeholder])
                        && files == old(files)[name := Stored(ctx.(children := ctx.children + [r.value]))]
      ensures r.Err? ==> files == old(files)
      ensures r.Err? ==> r.error.status == if name !in old(files) then 404 else if Strip(rawChild) == "" then 400 else 409
    {
      if name !in files {
        return Err(NotFound(name));
      }
      var child := Strip(rawChild);
      if child == "" {
        return Err(HttpError(400, "Name is required"));
      }
      var ctx := ReadContext(files[name]);
      if FindChild(ctx.children, child).Some? {
        return Err(HttpError(409, "Sub-context '" + child + "' already exists"));
      }
      var c := Child(child, [Placeholder]);
      ctx := ctx.(children := ctx.children + [c]);
      files := files[name := Stored(ctx)];
      return Ok(c);
    }

    /** `remove_child_item`: refuses to remove the placeholder before anything else, then drops
      * every item of that (type, id) from the child's items; 404 when the context, the child
      * or the item is missing, and then nothing is written. */
    method RemoveChildItem(name: string, child: string, kind: string, id: string) returns (r: Result<(), HttpError>)
      modifies this
      ensures kind == "parent" ==> r == Err(HttpError(400, "Cannot remove the parent placeholder item"))
      ensures r.Ok? <==> kind != "parent" && name in old(files)
                         && FindChild(Normalized(old(files)[name]).children, child).Some?
                         && Has(Normalized(old(files)[name]).children[FindChild(Normalized(old(files)[name]).children, child).value].items, ItemRef(kind, id))
      ensures r.Ok? ==> var ctx := Normalized(old(files)[name]);
                        var k := FindChild(ctx.children, child).value;
                        files == old(files)[name := Stored(SetList(ctx, ChildList(k), Without(ctx.children[k].items, ItemRef(kind, id))))]
      ensures r.Err? ==> files == old(files)
    {
      if kind == "parent" {
        return Err(HttpError(400, "Cannot remove the parent placeholder item"));
      }
      if name !in files {
        return Err(NotFound(name));
      }
      var ctx := ReadContext(files[name]);
      var k := FindChild(ctx.children, child);
      if k.None? {
        return Err(ChildNotFound(child));
      }
      var items := ctx.children[k.value].items;
      var items' := Without(items, ItemRef(kind, id));
      WithoutFacts(items, ItemRef(kind, id));
      if |items'| == |items| {
        return Err(HttpError(404, "Item not found in sub-context"));
      }
      ctx := SetList(ctx, ChildList(k.value), items');
      files := files[name := Stored(ctx)];
      return Ok(());
    }

    /** `delete_context`: 409 when a mixin uses the context or one of its children and the
      * deletion is not forced; a forced deletion first drops those mixins from every file. */
    method DeleteContext(name: string, force: bool) returns (r: Result<(), HttpError>)
      modifies this
      ensures name !in old(files) ==> r == Err(NotFound(name)) && files == old(files)
      ensures name in old(files) ==>
                var ps := ContextPaths(name, Normalized(old(files)[name]).children);
                && (r.Err? <==> AnyMentioned(old(files), ps) && !force)
                && (r.Err? ==> r.error == InUse(name) && files == old(files))
                && (r.Ok? ==> files == (if AnyMentioned(old(files), ps) then DropAll(old(files), ps) else old(files)) - {name})
    {
      if name !in files {
        return Err(NotFound(name));
      }
      var ctx := ReadContext(files[name]);
      var ps := ContextPaths(name, ctx.children);
      var used := FindUsed(files, ps);
      if used && !force {
        return Err(InUse(name));
      }
      var rest := files;
      if used {
        rest := RemoveAllReferences(files, ps);
      }
      files := rest - {name};
      return Ok(());
    }

    /** `rename_context`: the context is written under the stripped new name and its old file
      * removed, then every mixin of it and of each of its children is made to point at the new
      * paths; renaming to the same name answers the context as read, and a server error when
      * it does not exist. */
    method RenameContext(name: string, rawNew: string) returns (r: Result<Context, HttpError>)
      modifies this
      ensures Strip(rawNew) == "" ==> r == Err(HttpError(400, "New name is required"))
      ensures Strip(rawNew) != "" && Strip(rawNew) == name ==>
                r == if name in old(files) then Ok(Normalized(old(files)[name])) else Err(HttpError(500, "Internal Server Error"))
      ensures Strip(rawNew) != "" && Strip(rawNew) != name ==>
                && (name !in old(files) ==> r == Err(NotFound(name)))
                && (name in old(files) && Strip(rawNew) in old(files) ==>
                      r == Err(HttpError(409, "Context '" + Strip(rawNew) + "' already exists")))
                && (name in old(files) && Strip(rawNew) !in old(files) ==>
                      var ctx := Normalized(old(files)[name]).(name := Strip(rawNew));
                      r == Ok(ctx)
                      && files == RetargetAll(old(files)[Strip(rawNew) := Stored(ctx)] - {name},
                                              ContextPaths(name, ctx.children), ContextPaths(Strip(rawNew), ctx.children)))
      ensures r.Err? || Strip(rawNew) == name ==> files == old(files)
    {
      var newName := Strip(rawNew);
      if newName == "" {
        return Err(HttpError(400, "New name is required"));
      }
      if newName == name {
        if name !in files {
          return Err(HttpError(500, "Internal Server Error"));
        }
        var ctx := ReadContext(files[name]);
        return Ok(ctx);
      }
      if name !in files {
        return Err(NotFound(name));
      }
      if newName in files {
        return Err(HttpError(409, "Context '" + newName + "' already exists"));
      }
      var ctx := ReadContext(files[name]);
      ctx := ctx.(name := newName);
      var moved := files[newName := Stored(ctx)] - {name};
      files := RetargetRenamed(moved, name, newName, ctx.children);
      return Ok(ctx);
    }
  }
}
