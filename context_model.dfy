/** Contexts as the context router stores them (backend/app/routers/contexts.py): a named list of
  * items plus named child contexts, each child carrying a `parent` placeholder item that stands for
  * the parent's items. A context file may lack its `items` or `children` list, and a child its
  * `items`; reading a context fills those in and gives every child its placeholder. */
module ContextModel {
  import opened Wrappers
  import opened Strs

  /** One context item: its type (`confluence_page`, `jira_issue`, `instructions`, `git_repo`,
    * `repo_file`, `mixin` or `parent`), its id, the title and label (`labelText`) shown for it,
    * and the text an instruction carries (empty for every other item, which has no `text`). */
  datatype Item = Item(kind: string, id: string, title: string, labelText: string, text: string)

  /** The (type, id) pair that identifies an item (also a reorder request's reference). */
  datatype ItemRef = ItemRef(kind: string, id: string)

  function Key(it: Item): ItemRef {
    ItemRef(it.kind, it.id)
  }

  /** The item a child's `parent` placeholder is. */
  const Placeholder := Item("parent", "parent", "Parent", "Parent", "")

  datatype Child = Child(name: string, items: seq<Item>)
  datatype Context = Context(name: string, items: seq<Item>, children: seq<Child>)

  /** A context file as it is on disk: either list may be missing. */
  datatype StoredChild = StoredChild(name: string, items: Option<seq<Item>>)
  datatype StoredContext = StoredContext(name: string, items: Option<seq<Item>>, children: Option<seq<StoredChild>>)

  predicate HasParent(items: seq<Item>) {
    exists i :: 0 <= i < |items| && items[i].kind == "parent"
  }

  /** A child as read: missing items are empty, and a placeholder goes in front when no item
    * is of type `parent`. */
  function NormalChild(c: StoredChild): Child {
    var items := c.items.GetOr([]);
    Child(c.name, if HasParent(items) then items else [Placeholder] + items)
  }

  /** Reading a child adds exactly one placeholder, at the front, and only when it has none;
    * afterwards it has one. */
  lemma NormalChildFacts(c: StoredChild)
    ensures NormalChild(c).name == c.name
    ensures HasParent(NormalChild(c).items)
    ensures HasParent(c.items.GetOr([])) ==> NormalChild(c).items == c.items.GetOr([])
    ensures !HasParent(c.items.GetOr([])) ==>
              |NormalChild(c).items| == |c.items.GetOr([])| + 1 && NormalChild(c).items[0] == Placeholder
              && NormalChild(c).items[1..] == c.items.GetOr([])
  {
    assert Placeholder.kind == "parent";
    if !HasParent(c.items.GetOr([])) {
      assert NormalChild(c).items[0].kind == "parent";
    }
  }

  function NormalChildren(cs: seq<StoredChild>): (r: seq<Child>) {
    seq(|cs|, i requires 0 <= i < |cs| => NormalChild(cs[i]))
  }

  /** The context `_read_context` gives for a file. */
  function Normalized(s: StoredContext): Context {
    Context(s.name, s.items.GetOr([]), NormalChildren(s.children.GetOr([])))
  }

  /** Every child has its placeholder: the shape every context has once read. */
  predicate Normal(ctx: Context) {
    forall k :: 0 <= k < |ctx.children| ==> HasParent(ctx.children[k].items)
  }

  /** `_read_context`: fills in the missing lists and walks the children, giving each one
    * without a `parent` item a placeholder at index 0. */
  method ReadContext(s: StoredContext) returns (ctx: Context)
    ensures ctx == Normalized(s)
    ensures Normal(ctx)
  {
    var children := s.children.GetOr([]);
    var out: seq<Child> := [];
    for i := 0 to |children|
      invariant |out| == i
      invariant forall j :: 0 <= j < i ==> out[j] == NormalChild(children[j])
    {
      var child := children[i];
      var items := child.items.GetOr([]);
      if !HasParent(items) {
        items := [Placeholder] + items;
      }
      out := out + [Child(child.name, items)];
    }
    ctx := Context(s.name, s.items.GetOr([]), out);
    forall k | 0 <= k < |out|
      ensures HasParent(out[k].items)
    {
      NormalChildFacts(children[k]);
    }
  }

  /** The file `_write_context` writes for a context: every list present. */
  function Stored(ctx: Context): StoredContext {
    StoredContext(ctx.name, Some(ctx.items),
                  Some(seq(|ctx.children|, k requires 0 <= k < |ctx.children| =>
                         StoredChild(ctx.children[k].name, Some(ctx.children[k].items)))))
  }

  /** Reading back what was written gives the same context, as long as every child has its
    * placeholder; so reading is idempotent. */
  lemma ReadWritten(ctx: Context)
    requires Normal(ctx)
    ensures Normalized(Stored(ctx)) == ctx
  {
    var r := Normalized(Stored(ctx));
    assert |r.children| == |ctx.children|;
    forall k | 0 <= k < |ctx.children|
      ensures r.children[k] == ctx.children[k]
    {
      assert HasParent(ctx.children[k].items);
    }
  }

  lemma ReadIdempotent(s: StoredContext)
    ensures Normalized(Stored(Normalized(s))) == Normalized(s)
  {
    var ctx := Normalized(s);
    forall k | 0 <= k < |ctx.children|
      ensures HasParent(ctx.children[k].items)
    {
      NormalChildFacts(s.children.GetOr([])[k]);
    }
    ReadWritten(ctx);
  }

  // ---------------------------------------------------------------------------------------
  // Paths `parent` and `parent/child`
  // ---------------------------------------------------------------------------------------

  /** `path.split("/", 1)`: the parent name, and the rest after the first `/` if there is one. */
  function SplitPath(p: string): (string, Option<string>) {
    SplitFirst(p, '/')
  }

  /** The child part of a path as the router tests it: an empty one counts as none. */
  function ChildPart(p: string): (r: Option<string>)
    ensures r.Some? ==> r.value != "" && p == SplitPath(p).0 + "/" + r.value
  {
    var (_, c) := SplitPath(p);
    if c.Some? && c.value != "" then c else None
  }

  /** The path of a child context. */
  function ChildPath(parent: string, child: string): string {
    parent + "/" + child
  }

  /** A child path splits back into its parent and child names when the parent has no `/`. */
  lemma ChildPathSplits(parent: string, child: string)
    requires '/' !in parent
    ensures SplitPath(ChildPath(parent, child)) == (parent, Some(child))
  {
    var p := ChildPath(parent, child);
    assert p[|parent|] == '/';
    var k := Find(p, '/').value;
    assert p[..k] == parent;
    assert p[k + 1..] == child;
  }

  /** The first child of that name, as `_get_child` and the cycle walk find it. */
  function FindChild(cs: seq<Child>, name: string): (r: Option<nat>)
    ensures r.None? <==> forall k :: 0 <= k < |cs| ==> cs[k].name != name
    ensures r.Some? ==> r.value < |cs| && cs[r.value].name == name && forall k :: 0 <= k < r.value ==> cs[k].name != name
  {
    if cs == [] then None
    else if cs[0].name == name then Some(0)
    else match FindChild(cs[1..], name)
      case None => None
      case Some(k) => Some(k + 1)
  }
}
