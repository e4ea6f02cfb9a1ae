/** Mixin references between contexts (backend/app/routers/contexts.py): a `mixin` item names a
  * context path `parent` or `parent/child` whose items it stands for. The router refuses a mixin
  * that would close a cycle, finds the contexts that use a path, and rewrites or removes the
  * references to a path across every context file. The files are a map from context name to
  * file. */
module ContextMixins {
  import opened Wrappers
  import opened Strs
  import opened ContextModel
  import opened ContextItems
  import opened Reachability

  type Files = map<string, StoredContext>

  /** The reference a mixin item of that path has. */
  function MixinRef(path: string): ItemRef {
    ItemRef("mixin", path)
  }

  /** The ids of the mixin items, in order. */
  function MixinIds(items: seq<Item>): seq<string> {
    if items == [] then []
    else MixinIds(items[..|items| - 1]) + (if items[|items| - 1].kind == "mixin" then [items[|items| - 1].id] else [])
  }

  lemma {:induction false} MixinIdsMembers(items: seq<Item>)
    ensures forall x :: x in MixinIds(items) <==> exists it :: it in items && it.kind == "mixin" && it.id == x
  {
    if items != [] {
      MixinIdsMembers(items[..|items| - 1]);
      assert items == items[..|items| - 1] + [items[|items| - 1]];
    }
  }

  /** The first stored child of that name (`next(...)` over the raw children). */
  function FindStoredChild(cs: seq<StoredChild>, name: string): (r: Option<StoredChild>)
    ensures r.Some? ==> r.value in cs && r.value.name == name
    ensures r.None? ==> forall c :: c in cs ==> c.name != name
  {
    if cs == [] then None
    else if cs[0].name == name then Some(cs[0])
    else FindStoredChild(cs[1..], name)
  }

  /** The items the cycle walk follows from a path, read from the file as it is: the parent's
    * items, then those of the named child if it exists; nothing for a missing file. */
  function WalkItems(files: Files, p: string): seq<Item> {
    var parent := SplitPath(p).0;
    if parent !in files then []
    else
      var s := files[parent];
      var items := s.items.GetOr([]);
      match ChildPart(p)
      case None => items
      case Some(c) =>
        match FindStoredChild(s.children.GetOr([]), c)
        case Some(ch) => items + ch.items.GetOr([])
        case None => items
  }

  /** The mixin graph: a path's successors are the mixin ids among its walked items. */
  function Succ(files: Files): string -> seq<string> {
    p => MixinIds(WalkItems(files, p))
  }

  /** The mixin ids among some items. */
  function ItemsMixins(items: seq<Item>): set<string> {
    set it | it in items && it.kind == "mixin" :: it.id
  }

  /** A list mentions a path exactly when it holds a mixin item of it. */
  lemma ItemsMixinsHas(items: seq<Item>, x: string)
    ensures x in ItemsMixins(items) <==> Has(items, MixinRef(x))
  {
    if x in ItemsMixins(items) {
      var it :| it in items && it.kind == "mixin" && it.id == x;
      var i :| 0 <= i < |items| && items[i] == it;
    }
    if Has(items, MixinRef(x)) {
      var i :| 0 <= i < |items| && Key(items[i]) == MixinRef(x);
      assert items[i] in items;
    }
  }

  /** The mixin ids among the children's items. */
  function ChildrenMixins(cs: seq<StoredChild>): set<string> {
    if cs == [] then {} else ItemsMixins(cs[0].items.GetOr([])) + ChildrenMixins(cs[1..])
  }

  lemma {:induction false} ChildrenMixinsMembers(cs: seq<StoredChild>, x: string)
    ensures x in ChildrenMixins(cs) <==> exists c :: c in cs && x in ItemsMixins(c.items.GetOr([]))
  {
    if cs != [] {
      ChildrenMixinsMembers(cs[1..], x);
      assert forall c :: c in cs <==> c == cs[0] || c in cs[1..];
    }
  }

  /** The mixin ids of one file, in its items or any child's. */
  function FileMixins(s: StoredContext): set<string> {
    ItemsMixins(s.items.GetOr([])) + ChildrenMixins(s.children.GetOr([]))
  }

  /** Every path some mixin item of some file names. */
  function Mentioned(files: Files): set<string> {
    set k, x | k in files && x in FileMixins(files[k]) :: x
  }

  /** The walk only ever meets paths that some file mentions. */
  lemma SuccMentioned(files: Files, p: string)
    ensures forall x :: x in Succ(files)(p) ==> x in Mentioned(files)
  {
    var items := WalkItems(files, p);
    assert Succ(files)(p) == MixinIds(items);
    MixinIdsSet(items);
    var parent := SplitPath(p).0;
    if parent in files {
      WalkMixinsInFile(files, p);
      forall x | x in ItemsMixins(items)
        ensures x in Mentioned(files)
      {
        assert x in FileMixins(files[parent]);
      }
    }
  }

  /** What a path walks is mentioned by its context's file. */
  lemma WalkMixinsInFile(files: Files, p: string)
    requires SplitPath(p).0 in files
    ensures ItemsMixins(WalkItems(files, p)) <= FileMixins(files[SplitPath(p).0])
  {
    var s := files[SplitPath(p).0];
    var own := s.items.GetOr([]);
    var cs := s.children.GetOr([]);
    match ChildPart(p)
    case None =>
    case Some(c) =>
      match FindStoredChild(cs, c)
      case None =>
      case Some(ch) =>
        ItemsMixinsConcat(own, ch.items.GetOr([]));
        forall x | x in ItemsMixins(ch.items.GetOr([]))
          ensures x in ChildrenMixins(cs)
        {
          ChildrenMixinsMembers(cs, x);
        }
  }

  // ---------------------------------------------------------------------------------------
  // _detect_cycle
  // ---------------------------------------------------------------------------------------

  /** The inner loop of the walk: the ids of the mixin items pushed in order. */
  method PushMixins(stack: seq<string>, items: seq<Item>) returns (stack': seq<string>)
    ensures stack' == stack + MixinIds(items)
  {
    stack' := stack;
    for j := 0 to |items|
      invariant stack' == stack + MixinIds(items[..j])
    {
      assert items[..j + 1][..j] == items[..j];
      if items[j].kind == "mixin" {
        stack' := stack' + [items[j].id];
      }
    }
    assert items[..|items|] == items;
  }

  /** The walk of `_detect_cycle` from `target`, stopping at the first path that satisfies
    * `goal`; it reads a path's items with `walkItems`, `succ` gives for every path the mixin ids
    * among them, and `universe` bounds everything the walk can meet. */
  method Walk(walkItems: string -> seq<Item>, succ: string -> seq<string>, universe: set<string>,
              goal: string -> bool, target: string)
    returns (found: bool)
    requires forall p :: succ(p) == MixinIds(walkItems(p))
    requires target in universe && forall p, x :: x in succ(p) ==> x in universe
    ensures found <==> exists x :: goal(x) && Reachable(succ, target, x)
  {
    var visited: set<string> := {};
    var stack := [target];
    ReachableSelf(succ, target);
    while stack != []
      invariant visited <= universe && forall x :: x in stack ==> x in universe
      invariant WalkInv(succ, goal, target, visited, stack)
      decreases |universe - visited|, |stack|
    {
      var current := stack[|stack| - 1];
      PopLast(stack);
      stack := stack[..|stack| - 1];
      if goal(current) {
        assert WalkInv(succ, goal, target, visited, stack + [current]);
        return true;
      }
      if current in visited {
        WalkSkip(succ, goal, target, visited, stack, current);
        continue;
      }
      WalkStep(succ, goal, target, visited, stack, current);
      assert |universe - (visited + {current})| < |universe - visited| by {
        assert universe - (visited + {current}) == (universe - visited) - {current};
      }
      visited := visited + {current};
      stack := PushMixins(stack, walkItems(current));
    }
    WalkDone(succ, goal, target, visited);
    return false;
  }

  lemma PopLast(s: seq<string>)
    requires s != []
    ensures s == s[..|s| - 1] + [s[|s| - 1]]
  {
  }

  /** The walk over the context files, from `target` to the first path that satisfies `goal`. */
  method WalkFiles(files: Files, goal: string -> bool, target: string) returns (found: bool)
    ensures found <==> exists x :: goal(x) && Reachable(Succ(files), target, x)
  {
    var universe := {target} + Mentioned(files);
    SuccWithin(files, universe);
    var walkItems := p => WalkItems(files, p);
    assert forall p :: Succ(files)(p) == MixinIds(walkItems(p));
    found := Walk(walkItems, Succ(files), universe, goal, target);
  }

  /** Every path the walk can meet lies in a set holding all mentioned paths. */
  lemma SuccWithin(files: Files, universe: set<string>)
    requires Mentioned(files) <= universe
    ensures forall p, x :: x in Succ(files)(p) ==> x in universe
  {
    forall p
      ensures forall x :: x in Succ(files)(p) ==> x in universe
    {
      SuccMentioned(files, p);
    }
  }

  /** `_detect_cycle(source, target)`: a depth-first walk with a stack and a visited set from
    * the target along mixin items (a child path also follows its parent's items). It reports a
    * cycle exactly when the source is reachable from the target, and stops on cyclic graphs
    * because every path is expanded at most once. */
  method DetectCycle(files: Files, source: string, target: string) returns (cycle: bool)
    ensures cycle <==> Reachable(Succ(files), target, source)
  {
    cycle := WalkFiles(files, x => x == source, target);
  }

  /** The walk `_detect_cycle` needs when the source is a context `name` rather than one of its
    * children: every path `name` or `name/...` follows `name`'s items, so reaching any of them
    * closes a cycle. */
  method DetectParentCycle(files: Files, name: string, target: string) returns (cycle: bool)
    ensures cycle <==> exists x :: SplitPath(x).0 == name && Reachable(Succ(files), target, x)
  {
    cycle := WalkFiles(files, x => SplitPath(x).0 == name, target);
  }

  // ---------------------------------------------------------------------------------------
  // Appending an item to a context, as `add_item` does
  // ---------------------------------------------------------------------------------------

  /** The files once `it` is appended to the items of context `name` as read and the context
    * is written back. */
  function WithItem(files: Files, name: string, it: Item): Files
    requires name in files
  {
    var ctx := Normalized(files[name]);
    files[name := Stored(ctx.(items := ctx.items + [it]))]
  }

  lemma MixinIdsSet(items: seq<Item>)
    ensures forall x :: x in MixinIds(items) <==> x in ItemsMixins(items)
  {
    MixinIdsMembers(items);
  }

  /** The placeholder a child gets when read is not a mixin. */
  lemma NormalChildMixins(c: StoredChild)
    ensures ItemsMixins(NormalChild(c).items) == ItemsMixins(c.items.GetOr([]))
  {
    var items := c.items.GetOr([]);
    if !HasParent(items) {
      ItemsMixinsConcat([Placeholder], items);
      assert ItemsMixins([Placeholder]) == {};
    }
  }

  /** Two child lists with the same names and the same mixins per child lead a path to a child
    * with the same mixins. */
  lemma {:induction false} FindStoredChildAlike(cs: seq<StoredChild>, cs': seq<StoredChild>, name: string)
    requires |cs'| == |cs|
    requires forall k :: 0 <= k < |cs| ==>
               cs'[k].name == cs[k].name && ItemsMixins(cs'[k].items.GetOr([])) == ItemsMixins(cs[k].items.GetOr([]))
    ensures FindStoredChild(cs', name).Some? <==> FindStoredChild(cs, name).Some?
    ensures FindStoredChild(cs, name).Some? ==>
              ItemsMixins(FindStoredChild(cs', name).value.items.GetOr([])) == ItemsMixins(FindStoredChild(cs, name).value.items.GetOr([]))
  {
    if cs != [] {
      FindStoredChildAlike(cs[1..], cs'[1..], name);
    }
  }

  /** Appending `it` to context `name` adds its mixin to what every path `name` or `name/...`
    * walks, and changes nothing for the other paths. */
  lemma WalkItemsWithItem(files: Files, name: string, it: Item, p: string)
    requires name in files
    ensures ItemsMixins(WalkItems(WithItem(files, name, it), p))
            == ItemsMixins(WalkItems(files, p)) + (if SplitPath(p).0 == name then ItemsMixins([it]) else {})
  {
    var files' := WithItem(files, name, it);
    if SplitPath(p).0 == name {
      var s := files[name];
      var ctx := Normalized(s);
      var cs := s.children.GetOr([]);
      var cs' := files'[name].children.GetOr([]);
      forall k | 0 <= k < |cs|
        ensures cs'[k].name == cs[k].name && ItemsMixins(cs'[k].items.GetOr([])) == ItemsMixins(cs[k].items.GetOr([]))
      {
        NormalChildMixins(cs[k]);
      }
      ItemsMixinsConcat(ctx.items, [it]);
      match ChildPart(p)
      case None =>
      case Some(c) =>
        FindStoredChildAlike(cs, cs', c);
        if FindStoredChild(cs, c).Some? {
          ItemsMixinsConcat(ctx.items + [it], FindStoredChild(cs', c).value.items.GetOr([]));
          ItemsMixinsConcat(ctx.items, FindStoredChild(cs, c).value.items.GetOr([]));
        }
    }
  }

  lemma MixinIdsWithItem(files: Files, name: string, it: Item, p: string)
    requires name in files
    ensures forall x :: x in MixinIds(WalkItems(WithItem(files, name, it), p)) <==>
              x in MixinIds(WalkItems(files, p)) || (SplitPath(p).0 == name && it.kind == "mixin" && x == it.id)
  {
    WalkItemsWithItem(files, name, it, p);
    MixinIdsSet(WalkItems(WithItem(files, name, it), p));
    MixinIdsSet(WalkItems(files, p));
    assert forall x :: x in ItemsMixins([it]) <==> it.kind == "mixin" && x == it.id;
  }

  /** The mixin graph after the append: the old steps, plus a step to a mixin's target from
    * every path `name` or `name/...`. */
  lemma SuccWithItem(files: Files, name: string, it: Item)
    requires name in files
    ensures forall p, x :: x in Succ(WithItem(files, name, it))(p) <==>
              x in Succ(files)(p) || (SplitPath(p).0 == name && it.kind == "mixin" && x == it.id)
  {
    var files' := WithItem(files, name, it);
    forall p, x
      ensures x in Succ(files')(p) <==> x in Succ(files)(p) || (SplitPath(p).0 == name && it.kind == "mixin" && x == it.id)
    {
      assert Succ(files')(p) == MixinIds(WalkItems(files', p));
      assert Succ(files)(p) == MixinIds(WalkItems(files, p));
      MixinIdsWithItem(files, name, it, p);
    }
  }

  /** Appending an item keeps the mixin graph acyclic as long as, for a mixin, no path `name` or
    * `name/...` is reachable from its target: exactly what `DetectParentCycle` rules out. */
  lemma WithItemKeepsAcyclic(files: Files, name: string, it: Item)
    requires name in files && Acyclic(Succ(files))
    requires it.kind == "mixin" ==> forall x :: SplitPath(x).0 == name ==> !Reachable(Succ(files), it.id, x)
    ensures Acyclic(Succ(WithItem(files, name, it)))
  {
    SuccWithItem(files, name, it);
    if it.kind == "mixin" {
      AddStepsKeepAcyclic(Succ(files), Succ(WithItem(files, name, it)), x => SplitPath(x).0 == name, it.id);
    } else {
      AddStepsKeepAcyclic(Succ(files), Succ(WithItem(files, name, it)), x => false, it.id);
    }
  }

  // ---------------------------------------------------------------------------------------
  // _find_mixin_usages
  // ---------------------------------------------------------------------------------------

  /** The context paths that use `path` as a mixin: a file's name when its own items do, and
    * `name/child` for each child whose items do. */
  function Usages(files: Files, path: string): set<string> {
    (set k | k in files && Has(files[k].items.GetOr([]), MixinRef(path)) :: files[k].name)
    + (set k, c | k in files && c in files[k].children.GetOr([]) && Has(c.items.GetOr([]), MixinRef(path)) :: files[k].name + "/" + c.name)
  }

  /** A path has users exactly when some file mentions it. */
  lemma UsagesIffMentioned(files: Files, path: string)
    ensures Usages(files, path) != {} <==> path in Mentioned(files)
  {
    var r := MixinRef(path);
    if path in Mentioned(files) {
      var k :| k in files && path in FileMixins(files[k]);
      var s := files[k];
      ItemsMixinsHas(s.items.GetOr([]), path);
      ChildrenMixinsMembers(s.children.GetOr([]), path);
      if Has(s.items.GetOr([]), r) {
        assert s.name in Usages(files, path);
      } else {
        var c :| c in s.children.GetOr([]) && path in ItemsMixins(c.items.GetOr([]));
        ItemsMixinsHas(c.items.GetOr([]), path);
        assert s.name + "/" + c.name in Usages(files, path);
      }
    }
    if Usages(files, path) != {} {
      if k :| k in files && Has(files[k].items.GetOr([]), r) {
        ItemsMixinsHas(files[k].items.GetOr([]), path);
        assert path in FileMixins(files[k]);
      } else {
        var u :| u in Usages(files, path);
        var k, c :| k in files && c in files[k].children.GetOr([]) && Has(c.items.GetOr([]), r);
        ItemsMixinsHas(c.items.GetOr([]), path);
        ChildrenMixinsMembers(files[k].children.GetOr([]), path);
        assert path in FileMixins(files[k]);
      }
    }
  }

  // ---------------------------------------------------------------------------------------
  // _update_mixin_references
  // ---------------------------------------------------------------------------------------

  /** A mixin of `oldPath` made to point at `newPath`, titled and labelled by the last `/`
    * segment of the new path. */
  function Retarget(it: Item, oldPath: string, newPath: string): Item {
    if it.kind == "mixin" && it.id == oldPath then it.(id := newPath, title := LastSegment(newPath, '/'), labelText := LastSegment(newPath, '/')) else it
  }

  function RetargetItems(items: seq<Item>, oldPath: string, newPath: string): seq<Item> {
    if items == [] then []
    else RetargetItems(items[..|items| - 1], oldPath, newPath) + [Retarget(items[|items| - 1], oldPath, newPath)]
  }

  function RetargetOpt(items: Option<seq<Item>>, oldPath: string, newPath: string): Option<seq<Item>> {
    match items case Some(xs) => Some(RetargetItems(xs, oldPath, newPath)) case None => None
  }

  function RetargetChildren(cs: seq<StoredChild>, oldPath: string, newPath: string): seq<StoredChild> {
    if cs == [] then []
    else [StoredChild(cs[0].name, RetargetOpt(cs[0].items, oldPath, newPath))] + RetargetChildren(cs[1..], oldPath, newPath)
  }

  /** One file after the rewrite; a missing list stays missing. */
  function RetargetFile(s: StoredContext, oldPath: string, newPath: string): StoredContext {
    StoredContext(s.name, RetargetOpt(s.items, oldPath, newPath),
                  match s.children case None => None case Some(cs) => Some(RetargetChildren(cs, oldPath, newPath)))
  }

  /** The mentions after a rewrite: `oldPath` replaced by `newPath`. */
  function Renamed(m: set<string>, oldPath: string, newPath: string): set<string> {
    (m - {oldPath}) + (if oldPath in m then {newPath} else {})
  }

  lemma ItemsMixinsConcat(a: seq<Item>, b: seq<Item>)
    ensures ItemsMixins(a + b) == ItemsMixins(a) + ItemsMixins(b)
  {
    assert forall it :: it in a + b <==> it in a || it in b;
  }

  /** Each item keeps its place: a mixin of `oldPath` becomes one of `newPath`, titled by its
    * last segment, and every other item is unchanged. */
  lemma {:induction false} RetargetItemsPlaces(items: seq<Item>, oldPath: string, newPath: string)
    ensures |RetargetItems(items, oldPath, newPath)| == |items|
    ensures forall i :: 0 <= i < |items| ==> RetargetItems(items, oldPath, newPath)[i] == Retarget(items[i], oldPath, newPath)
  {
    if items != [] {
      RetargetItemsPlaces(items[..|items| - 1], oldPath, newPath);
    }
  }

  /** The list mentions `newPath` in place of `oldPath`, and is untouched if it had no mixin
    * of `oldPath`. */
  lemma {:induction false} RetargetItemsFacts(items: seq<Item>, oldPath: string, newPath: string)
    ensures ItemsMixins(RetargetItems(items, oldPath, newPath)) == Renamed(ItemsMixins(items), oldPath, newPath)
    ensures oldPath !in ItemsMixins(items) ==> RetargetItems(items, oldPath, newPath) == items
  {
    if items != [] {
      var init := items[..|items| - 1];
      var x := items[|items| - 1];
      var x' := Retarget(x, oldPath, newPath);
      RetargetItemsFacts(init, oldPath, newPath);
      assert items == init + [x];
      assert RetargetItems(items, oldPath, newPath) == RetargetItems(init, oldPath, newPath) + [x'];
      ItemsMixinsConcat(init, [x]);
      ItemsMixinsConcat(RetargetItems(init, oldPath, newPath), [x']);
      RetargetOne(x, oldPath, newPath);
      RenamedUnion(ItemsMixins(init), ItemsMixins([x]), oldPath, newPath);
    }
  }

  /** One item's mention, renamed. */
  lemma RetargetOne(x: Item, oldPath: string, newPath: string)
    ensures ItemsMixins([Retarget(x, oldPath, newPath)]) == Renamed(ItemsMixins([x]), oldPath, newPath)
  {
    assert forall it :: it in [x] <==> it == x;
    assert forall it :: it in [Retarget(x, oldPath, newPath)] <==> it == Retarget(x, oldPath, newPath);
  }

  /** Renaming distributes over a union of mentions. */
  lemma RenamedUnion(a: set<string>, b: set<string>, oldPath: string, newPath: string)
    ensures Renamed(a + b, oldPath, newPath) == Renamed(a, oldPath, newPath) + Renamed(b, oldPath, newPath)
  {
  }

  lemma {:induction false} RetargetChildrenFacts(cs: seq<StoredChild>, oldPath: string, newPath: string)
    ensures ChildrenMixins(RetargetChildren(cs, oldPath, newPath)) == Renamed(ChildrenMixins(cs), oldPath, newPath)
    ensures oldPath !in ChildrenMixins(cs) ==> RetargetChildren(cs, oldPath, newPath) == cs
  {
    if cs != [] {
      RetargetChildrenFacts(cs[1..], oldPath, newPath);
      RetargetItemsFacts(cs[0].items.GetOr([]), oldPath, newPath);
    }
  }

  /** After the rewrite a file mentions `newPath` in place of `oldPath` and nothing else
    * changes in what it mentions; a file with no reference to `oldPath` comes out unchanged,
    * which is why the router need only write the files it modified. */
  lemma RetargetFileFacts(s: StoredContext, oldPath: string, newPath: string)
    ensures FileMixins(RetargetFile(s, oldPath, newPath)) == Renamed(FileMixins(s), oldPath, newPath)
    ensures oldPath !in FileMixins(s) ==> RetargetFile(s, oldPath, newPath) == s
  {
    RetargetItemsFacts(s.items.GetOr([]), oldPath, newPath);
    RetargetChildrenFacts(s.children.GetOr([]), oldPath, newPath);
  }

  /** `_update_mixin_references`: every file, in no particular order, rewritten. */
  method UpdateMixinReferences(files: Files, oldPath: string, newPath: string) returns (files': Files)
    ensures files'.Keys == files.Keys
    ensures forall k :: k in files ==> files'[k] == RetargetFile(files[k], oldPath, newPath)
    ensures files' == RetargetFiles(files, oldPath, newPath)
  {
    var todo := files.Keys;
    files' := files;
    while todo != {}
      invariant todo <= files.Keys && files'.Keys == files.Keys
      invariant forall k :: k in files ==> files'[k] == if k in todo then files[k] else RetargetFile(files[k], oldPath, newPath)
      decreases todo
    {
      var k :| k in todo;
      files' := files'[k := RetargetFile(files[k], oldPath, newPath)];
      todo := todo - {k};
    }
  }

  /** Across the files, the rewrite renames the path in the mixin graph. */
  lemma RetargetEverywhere(files: Files, files': Files, oldPath: string, newPath: string)
    requires files'.Keys == files.Keys
    requires forall k :: k in files ==> files'[k] == RetargetFile(files[k], oldPath, newPath)
    ensures Mentioned(files') == Renamed(Mentioned(files), oldPath, newPath)
  {
    forall k | k in files
      ensures FileMixins(files'[k]) == Renamed(FileMixins(files[k]), oldPath, newPath)
    {
      RetargetFileFacts(files[k], oldPath, newPath);
    }
    forall x
      ensures x in Mentioned(files') <==> x in Renamed(Mentioned(files), oldPath, newPath)
    {
      if x in Mentioned(files') {
        var k :| k in files' && x in FileMixins(files'[k]);
      }
      if x in Mentioned(files) && x != oldPath {
        var k :| k in files && x in FileMixins(files[k]);
        assert x in FileMixins(files'[k]);
      }
      if x == newPath && oldPath in Mentioned(files) {
        var k :| k in files && oldPath in FileMixins(files[k]);
        assert x in FileMixins(files'[k]);
      }
    }
  }

  // ---------------------------------------------------------------------------------------
  // _remove_mixin_references
  // ---------------------------------------------------------------------------------------

  /** The filtered children: every child's items present and without mixins of `path`. */
  function DropChildren(cs: seq<StoredChild>, path: string): seq<StoredChild> {
    if cs == [] then []
    else [StoredChild(cs[0].name, Some(Without(cs[0].items.GetOr([]), MixinRef(path))))] + DropChildren(cs[1..], path)
  }

  /** One file after the removal: untouched unless it mentions `path`; otherwise its items and
    * each child's items filtered, the filtered lists now present even if they were missing. */
  function DropRefsFile(s: StoredContext, path: string): StoredContext {
    if path !in FileMixins(s) then s
    else
      StoredContext(s.name, Some(Without(s.items.GetOr([]), MixinRef(path))),
                    match s.children case None => None case Some(cs) => Some(DropChildren(cs, path)))
  }

  lemma DropItemsMixins(items: seq<Item>, path: string)
    ensures ItemsMixins(Without(items, MixinRef(path))) == ItemsMixins(items) - {path}
  {
    WithoutFacts(items, MixinRef(path));
    var w := Without(items, MixinRef(path));
    forall x
      ensures x in ItemsMixins(w) <==> x in ItemsMixins(items) && x != path
    {
      if x in ItemsMixins(items) && x != path {
        var it :| it in items && it.kind == "mixin" && it.id == x;
        assert it in w;
      }
    }
  }

  lemma {:induction false} DropChildrenFacts(cs: seq<StoredChild>, path: string)
    ensures ChildrenMixins(DropChildren(cs, path)) == ChildrenMixins(cs) - {path}
    ensures |DropChildren(cs, path)| == |cs|
    ensures forall k :: 0 <= k < |cs| ==>
              DropChildren(cs, path)[k] == StoredChild(cs[k].name, Some(Without(cs[k].items.GetOr([]), MixinRef(path))))
  {
    if cs != [] {
      DropChildrenFacts(cs[1..], path);
      DropItemsMixins(cs[0].items.GetOr([]), path);
    }
  }

  /** After the removal the file mentions exactly what it did, less `path`. */
  lemma DropRefsMentions(s: StoredContext, path: string)
    ensures FileMixins(DropRefsFile(s, path)) == FileMixins(s) - {path}
  {
    DropItemsMixins(s.items.GetOr([]), path);
    DropChildrenFacts(s.children.GetOr([]), path);
  }

  /** Filtering out mixins neither adds nor removes a `parent` item, and commutes with putting
    * the placeholder in front. */
  lemma DropPlaceholderSafe(items: seq<Item>, r: ItemRef)
    requires r.kind == "mixin"
    ensures HasParent(Without(items, r)) <==> HasParent(items)
    ensures Without([Placeholder] + items, r) == [Placeholder] + Without(items, r)
  {
    WithoutKeepsParent(items, r);
    UnreferencedConcat([Placeholder], items, [r]);
    assert Unreferenced([Placeholder], [r]) == [Placeholder] by {
      assert [Placeholder][..0] == [];
    }
  }

  /** Reading one child after the removal is reading it before and filtering. */
  lemma DropChildRead(c: StoredChild, path: string)
    ensures NormalChild(StoredChild(c.name, Some(Without(c.items.GetOr([]), MixinRef(path)))))
            == Child(c.name, Without(NormalChild(c).items, MixinRef(path)))
  {
    DropPlaceholderSafe(c.items.GetOr([]), MixinRef(path));
  }

  /** Reading a file after the removal gives the context as read before, with every list
    * filtered: the child placeholders are not affected. */
  lemma DropRefsRead(s: StoredContext, path: string)
    ensures var ctx := Normalized(s);
            var ctx' := Normalized(DropRefsFile(s, path));
            ctx'.name == ctx.name && ctx'.items == Without(ctx.items, MixinRef(path))
            && |ctx'.children| == |ctx.children|
            && forall k :: 0 <= k < |ctx.children| ==>
                 ctx'.children[k] == Child(ctx.children[k].name, Without(ctx.children[k].items, MixinRef(path)))
  {
    var r := MixinRef(path);
    var cs := s.children.GetOr([]);
    if path !in FileMixins(s) {
      ItemsMixinsHas(s.items.GetOr([]), path);
      WithoutFacts(s.items.GetOr([]), r);
      forall k | 0 <= k < |cs|
        ensures Without(NormalChild(cs[k]).items, r) == NormalChild(cs[k]).items
      {
        ChildrenMixinsMembers(cs, path);
        assert cs[k] in cs;
        ItemsMixinsHas(cs[k].items.GetOr([]), path);
        DropChildRead(cs[k], path);
        WithoutFacts(cs[k].items.GetOr([]), r);
      }
    } else {
      DropChildrenFacts(cs, path);
      forall k | 0 <= k < |cs|
        ensures NormalChild(DropChildren(cs, path)[k]) == Child(cs[k].name, Without(NormalChild(cs[k]).items, r))
      {
        DropChildRead(cs[k], path);
      }
    }
  }

  /** `_remove_mixin_references`: every file, in no particular order, with its references to
    * `path` dropped. */
  method RemoveMixinReferences(files: Files, path: string) returns (files': Files)
    ensures files'.Keys == files.Keys
    ensures forall k :: k in files ==> files'[k] == DropRefsFile(files[k], path)
    ensures files' == DropFiles(files, path)
  {
    var todo := files.Keys;
    files' := files;
    while todo != {}
      invariant todo <= files.Keys && files'.Keys == files.Keys
      invariant forall k :: k in files ==> files'[k] == if k in todo then files[k] else DropRefsFile(files[k], path)
      decreases todo
    {
      var k :| k in todo;
      files' := files'[k := DropRefsFile(files[k], path)];
      todo := todo - {k};
    }
  }

  /** After the removal nothing mentions `path` and every other mention is kept. */
  lemma RemovedEverywhere(files: Files, files': Files, path: string)
    requires files'.Keys == files.Keys
    requires forall k :: k in files ==> files'[k] == DropRefsFile(files[k], path)
    ensures Mentioned(files') == Mentioned(files) - {path}
  {
    forall k | k in files
      ensures FileMixins(files'[k]) == FileMixins(files[k]) - {path}
    {
      DropRefsMentions(files[k], path);
    }
    forall x
      ensures x in Mentioned(files') <==> x in Mentioned(files) && x != path
    {
      if x in Mentioned(files') {
        var k :| k in files' && x in FileMixins(files'[k]);
      }
      if x in Mentioned(files) && x != path {
        var k :| k in files && x in FileMixins(files[k]);
        assert x in FileMixins(files'[k]);
      }
    }
  }

  // ---------------------------------------------------------------------------------------
  // Several paths at once: what delete_context and rename_context do to the mixin graph
  // ---------------------------------------------------------------------------------------

  /** One pass of `_update_mixin_references` over every file. */
  function RetargetFiles(files: Files, oldPath: string, newPath: string): (r: Files)
    ensures r.Keys == files.Keys
  {
    map k | k in files :: RetargetFile(files[k], oldPath, newPath)
  }

  /** One pass of `_remove_mixin_references` over every file. */
  function DropFiles(files: Files, path: string): (r: Files)
    ensures r.Keys == files.Keys
  {
    map k | k in files :: DropRefsFile(files[k], path)
  }

  /** The passes for `olds[i]` to `news[i]`, one after the other in order. */
  function RetargetAll(files: Files, olds: seq<string>, news: seq<string>): (r: Files)
    requires |olds| == |news|
    ensures r.Keys == files.Keys
  {
    if olds == [] then files
    else RetargetFiles(RetargetAll(files, olds[..|olds| - 1], news[..|news| - 1]), olds[|olds| - 1], news[|news| - 1])
  }

  /** One more pair of paths is one more pass over the files. */
  lemma RetargetAllStep(files: Files, olds: seq<string>, news: seq<string>, k: nat)
    requires |olds| == |news| && k + 1 < |olds|
    ensures RetargetAll(files, olds[..k + 2], news[..k + 2])
            == RetargetFiles(RetargetAll(files, olds[..k + 1], news[..k + 1]), olds[k + 1], news[k + 1])
  {
    assert olds[..k + 2][..k + 1] == olds[..k + 1] && news[..k + 2][..k + 1] == news[..k + 1];
  }

  /** The removal passes for every path of `ps`, in order. */
  function DropAll(files: Files, ps: seq<string>): (r: Files)
    ensures r.Keys == files.Keys
  {
    if ps == [] then files else DropFiles(DropAll(files, ps[..|ps| - 1]), ps[|ps| - 1])
  }

  /** One more path is one more removal pass over the files. */
  lemma DropAllStep(files: Files, ps: seq<string>, i: nat)
    requires i < |ps|
    ensures DropAll(files, ps[..i + 1]) == DropFiles(DropAll(files, ps[..i]), ps[i])
  {
    assert ps[..i + 1][..i] == ps[..i] && ps[..i + 1][i] == ps[i];
  }

  /** The renames of a set of paths, in order. */
  function RenamedAll(m: set<string>, olds: seq<string>, news: seq<string>): set<string>
    requires |olds| == |news|
  {
    if olds == [] then m
    else Renamed(RenamedAll(m, olds[..|olds| - 1], news[..|news| - 1]), olds[|olds| - 1], news[|news| - 1])
  }

  lemma {:induction false} MentionedRetargetAll(files: Files, olds: seq<string>, news: seq<string>)
    requires |olds| == |news|
    ensures Mentioned(RetargetAll(files, olds, news)) == RenamedAll(Mentioned(files), olds, news)
  {
    if olds != [] {
      var n := |olds| - 1;
      MentionedRetargetAll(files, olds[..n], news[..n]);
      var g := RetargetAll(files, olds[..n], news[..n]);
      RetargetEverywhere(g, RetargetFiles(g, olds[n], news[n]), olds[n], news[n]);
    }
  }

  lemma {:induction false} MentionedDropAll(files: Files, ps: seq<string>)
    ensures forall x :: x in Mentioned(DropAll(files, ps)) <==> x in Mentioned(files) && x !in ps
  {
    if ps != [] {
      var n := |ps| - 1;
      MentionedDropAll(files, ps[..n]);
      var g := DropAll(files, ps[..n]);
      RemovedEverywhere(g, DropFiles(g, ps[n]), ps[n]);
      assert ps == ps[..n] + [ps[n]];
    }
  }

  /** Dropping a file and removing references commute. */
  lemma {:induction false} DropAllWithout(files: Files, ps: seq<string>, name: string)
    ensures DropAll(files, ps) - {name} == DropAll(files - {name}, ps)
  {
    if ps != [] {
      DropAllWithout(files, ps[..|ps| - 1], name);
    }
  }

  /** Deleting a file mentions nothing new. */
  lemma MentionedWithout(files: Files, name: string)
    ensures Mentioned(files - {name}) <= Mentioned(files)
  {
    forall x | x in Mentioned(files - {name})
      ensures x in Mentioned(files)
    {
      var k :| k in files - {name} && x in FileMixins((files - {name})[k]);
      assert k in files && x in FileMixins(files[k]);
    }
  }

  /** Renaming a set of paths in order, when no old path is a new one and equal old paths have
    * equal new ones: an old path is gone, and each old path that was there is there under its
    * new name, and nothing else changes. */
  lemma {:induction false} RenamedAllMembers(m: set<string>, olds: seq<string>, news: seq<string>, x: string)
    requires |olds| == |news|
    requires forall i, j :: 0 <= i < |olds| && 0 <= j < |news| ==> olds[i] != news[j]
    requires forall i, j :: 0 <= i < |olds| && 0 <= j < |olds| && olds[i] == olds[j] ==> news[i] == news[j]
    ensures x in RenamedAll(m, olds, news) <==>
              (x in m && x !in olds) || exists i :: 0 <= i < |olds| && news[i] == x && olds[i] in m
  {
    if olds != [] {
      var n := |olds| - 1;
      var o, w := olds[n], news[n];
      var olds', news' := olds[..n], news[..n];
      var r := RenamedAll(m, olds', news');
      assert RenamedAll(m, olds, news) == Renamed(r, o, w);
      assert forall y :: y in olds <==> y in olds' || y == o by {
        assert olds == olds' + [o];
      }
      RenamedFromSnoc(m, olds, news, x);
      RenamedAllMembers(m, olds', news', x);
      RenamedAllMembers(m, olds', news', o);
      assert forall i :: 0 <= i < n ==> news'[i] != o;
      assert o != w;
      if x == w && o in m && o in olds' {
        var j :| 0 <= j < n && olds'[j] == o;
        assert news[j] == w;
      }
    }
  }

  /** The old paths renamed to `x`, one entry more. */
  lemma RenamedFromSnoc(m: set<string>, olds: seq<string>, news: seq<string>, x: string)
    requires |olds| == |news| && olds != []
    ensures var n := |olds| - 1;
            (exists i :: 0 <= i < |olds| && news[i] == x && olds[i] in m) <==>
            (exists i :: 0 <= i < n && news[..n][i] == x && olds[..n][i] in m) || (news[n] == x && olds[n] in m)
  {
    var n := |olds| - 1;
    if exists i :: 0 <= i < |olds| && news[i] == x && olds[i] in m {
      var i :| 0 <= i < |olds| && news[i] == x && olds[i] in m;
      if i < n {
        assert news[..n][i] == x && olds[..n][i] in m;
      }
    }
    if exists i :: 0 <= i < n && news[..n][i] == x && olds[..n][i] in m {
      var i :| 0 <= i < n && news[..n][i] == x && olds[..n][i] in m;
      assert news[i] == x && olds[i] in m;
    }
  }

  /** The paths of a context and of its children, as delete_context and rename_context list
    * them. */
  function ContextPaths(name: string, cs: seq<Child>): (r: seq<string>)
    ensures |r| == |cs| + 1 && r[0] == name
    ensures forall k :: 0 <= k < |cs| ==> r[k + 1] == ChildPath(name, cs[k].name)
  {
    [name] + seq(|cs|, k requires 0 <= k < |cs| => ChildPath(name, cs[k].name))
  }

  /** The paths under two different names without `/`: none under one is under the other, and
    * equal paths under the one are equal under the other. */
  lemma ContextPathsApart(name: string, newName: string, cs: seq<Child>)
    requires '/' !in name && '/' !in newName && name != newName
    ensures var olds, news := ContextPaths(name, cs), ContextPaths(newName, cs);
            && (forall i, j :: 0 <= i < |olds| && 0 <= j < |news| ==> olds[i] != news[j])
            && (forall i, j :: 0 <= i < |olds| && 0 <= j < |olds| && olds[i] == olds[j] ==> news[i] == news[j])
  {
    var olds, news := ContextPaths(name, cs), ContextPaths(newName, cs);
    forall i, j | 0 <= i < |olds| && 0 <= j < |news|
      ensures olds[i] != news[j]
    {
      if i > 0 && j > 0 {
        ChildPathSplits(name, cs[i - 1].name);
        ChildPathSplits(newName, cs[j - 1].name);
      } else if i > 0 {
        assert olds[i][|name|] == '/';
      } else if j > 0 {
        assert news[j][|newName|] == '/';
      }
    }
    forall i, j | 0 <= i < |olds| && 0 <= j < |olds| && olds[i] == olds[j]
      ensures news[i] == news[j]
    {
      if i > 0 && j > 0 {
        ChildPathSplits(name, cs[i - 1].name);
        ChildPathSplits(name, cs[j - 1].name);
      }
    }
  }

  /** A context read and written back under another name mentions what its file did. */
  lemma StoredMixins(s: StoredContext, newName: string)
    ensures FileMixins(Stored(Normalized(s).(name := newName))) == FileMixins(s)
  {
    var cs := s.children.GetOr([]);
    var ctx := Normalized(s);
    var st := Stored(ctx.(name := newName)).children.value;
    assert |st| == |cs|;
    forall k | 0 <= k < |st|
      ensures ItemsMixins(st[k].items.GetOr([])) == ItemsMixins(cs[k].items.GetOr([]))
    {
      assert st[k].items == Some(NormalChild(cs[k]).items);
      NormalChildMixins(cs[k]);
    }
    ChildrenMixinsSame(st, cs);
  }

  /** Child lists that mention the same paths child by child mention the same paths. */
  lemma {:induction false} ChildrenMixinsSame(a: seq<StoredChild>, b: seq<StoredChild>)
    requires |a| == |b|
    requires forall k :: 0 <= k < |a| ==> ItemsMixins(a[k].items.GetOr([])) == ItemsMixins(b[k].items.GetOr([]))
    ensures ChildrenMixins(a) == ChildrenMixins(b)
  {
    if a != [] {
      assert ItemsMixins(a[0].items.GetOr([])) == ItemsMixins(b[0].items.GetOr([]));
      forall k | 0 <= k < |a[1..]|
        ensures ItemsMixins(a[1..][k].items.GetOr([])) == ItemsMixins(b[1..][k].items.GetOr([]))
      {
        assert a[1..][k] == a[k + 1] && b[1..][k] == b[k + 1];
      }
      ChildrenMixinsSame(a[1..], b[1..]);
    }
  }

  /** Moving a file to a new key with the same mentions changes no mention. */
  lemma MentionedMoved(files: Files, name: string, newName: string, s: StoredContext)
    requires name in files && newName !in files && FileMixins(s) == FileMixins(files[name])
    ensures Mentioned(files[newName := s] - {name}) == Mentioned(files)
  {
    var g := files[newName := s] - {name};
    forall x
      ensures x in Mentioned(g) <==> x in Mentioned(files)
    {
      if x in Mentioned(g) {
        var k :| k in g && x in FileMixins(g[k]);
        if k == newName {
          assert x in FileMixins(files[name]);
        } else {
          assert x in FileMixins(files[k]);
        }
      }
      if x in Mentioned(files) {
        var k :| k in files && x in FileMixins(files[k]);
        if k == name {
          assert x in FileMixins(g[newName]);
        } else {
          assert x in FileMixins(g[k]);
        }
      }
    }
  }

  // ---------------------------------------------------------------------------------------
  // _resolve_mixin
  // ---------------------------------------------------------------------------------------

  /** The item a mixin of `p` becomes: an error when the parent file is missing or a named
    * child does not exist; otherwise titled and labelled by the text after the first `/`
    * (the whole path when there is none). */
  function ResolveMixin(files: Files, p: string): (r: Result<Item, HttpError>)
    ensures r.Ok? ==> r.value.kind == "mixin" && r.value.id == p
    ensures r.Ok? <==> SplitPath(p).0 in files
                       && (ChildPart(p).Some? ==> FindChild(Normalized(files[SplitPath(p).0]).children, ChildPart(p).value).Some?)
    ensures r.Err? ==> r.error.status == 404
  {
    var (parent, rest) := SplitPath(p);
    if parent !in files then Err(HttpError(404, "Mixin target context '" + parent + "' not found"))
    else match ChildPart(p)
      case Some(c) =>
        if FindChild(Normalized(files[parent]).children, c).None? then
          Err(HttpError(404, "Mixin target sub-context '" + c + "' not found in '" + parent + "'"))
        else Ok(Item("mixin", p, c, c, ""))
      case None =>
        var title := match rest case Some(t) => t case None => parent;
        Ok(Item("mixin", p, title, title, ""))
  }
}
