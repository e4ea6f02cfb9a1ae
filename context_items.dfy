/** The list operations the context router performs on a context's items: removing every item
  * of a (type, id), moving the first such item between lists, and reordering a list by the keys a
  * request names (backend/app/routers/contexts.py). */
module ContextItems {
  import opened Wrappers
  import opened ContextModel

  /** Some item has that (type, id). */
  predicate Has(items: seq<Item>, r: ItemRef) {
    exists i :: 0 <= i < |items| && Key(items[i]) == r
  }

  /** No two items share a (type, id). */
  predicate DistinctKeys(items: seq<Item>) {
    forall i, j :: 0 <= i < j < |items| ==> Key(items[i]) != Key(items[j])
  }

  /** The items whose (type, id) none of `refs` names, in their order. */
  function Unreferenced(d: seq<Item>, refs: seq<ItemRef>): seq<Item> {
    if d == [] then []
    else
      var init := Unreferenced(d[..|d| - 1], refs);
      if Key(d[|d| - 1]) in refs then init else init + [d[|d| - 1]]
  }

  lemma {:induction false} UnreferencedMembers(d: seq<Item>, refs: seq<ItemRef>)
    ensures |Unreferenced(d, refs)| <= |d|
    ensures forall x :: x in Unreferenced(d, refs) <==> x in d && Key(x) !in refs
  {
    if d != [] {
      UnreferencedMembers(d[..|d| - 1], refs);
      assert d == d[..|d| - 1] + [d[|d| - 1]];
    }
  }

  /** Filtering nothing out leaves the list as it is. */
  lemma {:induction false} UnreferencedNoop(d: seq<Item>, refs: seq<ItemRef>)
    requires forall i :: 0 <= i < |d| ==> Key(d[i]) !in refs
    ensures Unreferenced(d, refs) == d
  {
    if d != [] {
      UnreferencedNoop(d[..|d| - 1], refs);
    }
  }

  /** Filtering out at least one item shortens the list. */
  lemma {:induction false} UnreferencedShorter(d: seq<Item>, refs: seq<ItemRef>)
    requires exists i :: 0 <= i < |d| && Key(d[i]) in refs
    ensures |Unreferenced(d, refs)| < |d|
  {
    var init := d[..|d| - 1];
    UnreferencedMembers(init, refs);
    if Key(d[|d| - 1]) !in refs {
      var i :| 0 <= i < |d| && Key(d[i]) in refs;
      assert init[i] == d[i];
      UnreferencedShorter(init, refs);
    }
  }

  lemma {:induction false} UnreferencedConcat(a: seq<Item>, b: seq<Item>, refs: seq<ItemRef>)
    ensures Unreferenced(a + b, refs) == Unreferenced(a, refs) + Unreferenced(b, refs)
    decreases |b|
  {
    if b != [] {
      assert (a + b)[..|a + b| - 1] == a + b[..|b| - 1];
      UnreferencedConcat(a, b[..|b| - 1], refs);
    } else {
      assert a + b == a;
    }
  }

  lemma {:induction false} UnreferencedCompose(d: seq<Item>, a: seq<ItemRef>, b: seq<ItemRef>)
    ensures Unreferenced(Unreferenced(d, a), b) == Unreferenced(d, a + b)
  {
    if d != [] {
      UnreferencedCompose(d[..|d| - 1], a, b);
      var init := Unreferenced(d[..|d| - 1], a);
      if Key(d[|d| - 1]) !in a {
        assert Unreferenced(init + [d[|d| - 1]], b)[..|Unreferenced(init + [d[|d| - 1]], b)|] == Unreferenced(init + [d[|d| - 1]], b);
        assert (init + [d[|d| - 1]])[..|init|] == init;
      }
    }
  }

  lemma {:induction false} UnreferencedDistinct(d: seq<Item>, refs: seq<ItemRef>)
    requires DistinctKeys(d)
    ensures DistinctKeys(Unreferenced(d, refs))
  {
    if d != [] {
      var init := d[..|d| - 1];
      UnreferencedDistinct(init, refs);
      UnreferencedMembers(init, refs);
      var u := Unreferenced(init, refs);
      forall i | 0 <= i < |u|
        ensures Key(u[i]) != Key(d[|d| - 1])
      {
        assert u[i] in init;
      }
    }
  }

  // ---------------------------------------------------------------------------------------
  // remove_item / remove_child_item
  // ---------------------------------------------------------------------------------------

  /** `[i for i in items if not (i["type"] == t and i["id"] == id)]`. */
  function Without(items: seq<Item>, r: ItemRef): seq<Item> {
    Unreferenced(items, [r])
  }

  /** Removing takes out every item of that (type, id) and keeps the others in order; the list
    * shrinks exactly when there was one, which is what decides the 404. */
  lemma WithoutFacts(items: seq<Item>, r: ItemRef)
    ensures forall x :: x in Without(items, r) <==> x in items && Key(x) != r
    ensures !Has(items, r) ==> Without(items, r) == items
    ensures Has(items, r) <==> |Without(items, r)| < |items|
  {
    UnreferencedMembers(items, [r]);
    if Has(items, r) {
      var i :| 0 <= i < |items| && Key(items[i]) == r;
      UnreferencedShorter(items, [r]);
    } else {
      UnreferencedNoop(items, [r]);
    }
  }

  /** Removing items of any type but `parent` neither adds nor removes a `parent` item. */
  lemma WithoutKeepsParent(items: seq<Item>, r: ItemRef)
    requires r.kind != "parent"
    ensures HasParent(Without(items, r)) <==> HasParent(items)
  {
    WithoutFacts(items, r);
    if HasParent(items) {
      var i :| 0 <= i < |items| && items[i].kind == "parent";
      assert items[i] in Without(items, r);
    }
    if HasParent(Without(items, r)) {
      var i :| 0 <= i < |Without(items, r)| && Without(items, r)[i].kind == "parent";
      assert Without(items, r)[i] in items;
    }
  }

  // ---------------------------------------------------------------------------------------
  // move_item
  // ---------------------------------------------------------------------------------------

  /** The index of the first item of that (type, id). */
  function FirstMatch(items: seq<Item>, r: ItemRef): (k: Option<nat>)
    ensures k.None? <==> !Has(items, r)
    ensures k.Some? ==> k.value < |items| && Key(items[k.value]) == r
                        && forall i :: 0 <= i < k.value ==> Key(items[i]) != r
  {
    if items == [] then None
    else if Key(items[0]) == r then Some(0)
    else match FirstMatch(items[1..], r)
      case None =>
        assert forall i :: 1 <= i < |items| ==> items[i] == items[1..][i - 1];
        None
      case Some(k) =>
        assert forall i :: 1 <= i <= k ==> items[i] == items[1..][i - 1];
        Some(k + 1)
  }

  /** The `for i, it in enumerate(src)` search of `move_item`. */
  method FindItem(items: seq<Item>, r: ItemRef) returns (k: Option<nat>)
    ensures k == FirstMatch(items, r)
  {
    k := None;
    for i := 0 to |items|
      invariant forall j :: 0 <= j < i ==> Key(items[j]) != r
    {
      if Key(items[i]) == r {
        return Some(i);
      }
    }
  }

  /** `list.pop(k)`. */
  function Pop(items: seq<Item>, k: nat): seq<Item>
    requires k < |items|
  {
    items[..k] + items[k + 1..]
  }

  /** `insert(to_index, x)` when the index is within the list, else `append(x)`. */
  function InsertAt(dst: seq<Item>, idx: int, x: Item): seq<Item> {
    if idx < 0 || idx >= |dst| then dst + [x] else dst[..idx] + [x] + dst[idx..]
  }

  /** Popping loses exactly the popped item; inserting adds exactly the inserted one, at the
    * requested index when it is within the list and at the end otherwise. */
  lemma PopInsertFacts(items: seq<Item>, k: nat, dst: seq<Item>, idx: int, x: Item)
    requires k < |items|
    ensures multiset(Pop(items, k)) + multiset{items[k]} == multiset(items)
    ensures multiset(InsertAt(dst, idx, x)) == multiset(dst) + multiset{x}
    ensures |InsertAt(dst, idx, x)| == |dst| + 1
    ensures 0 <= idx < |dst| ==> InsertAt(dst, idx, x)[idx] == x
    ensures !(0 <= idx < |dst|) ==> InsertAt(dst, idx, x)[|dst|] == x
  {
    assert items == items[..k] + [items[k]] + items[k + 1..];
    if 0 <= idx < |dst| {
      assert dst == dst[..idx] + dst[idx..];
    }
  }

  /** Which list of a context an item is moved from or to. */
  datatype ListRef = ParentList | ChildList(k: nat)

  predicate ValidList(ctx: Context, l: ListRef) {
    l.ChildList? ==> l.k < |ctx.children|
  }

  function GetList(ctx: Context, l: ListRef): seq<Item>
    requires ValidList(ctx, l)
  {
    match l
    case ParentList => ctx.items
    case ChildList(k) => ctx.children[k].items
  }

  function SetList(ctx: Context, l: ListRef, items: seq<Item>): (r: Context)
    requires ValidList(ctx, l)
    ensures |r.children| == |ctx.children| && forall k :: 0 <= k < |ctx.children| ==> r.children[k].name == ctx.children[k].name
    ensures r.name == ctx.name
  {
    match l
    case ParentList => ctx.(items := items)
    case ChildList(k) => ctx.(children := ctx.children[k := Child(ctx.children[k].name, items)])
  }

  /** Every item of a context, the parent's first and then each child's. */
  function AllItems(ctx: Context): seq<Item> {
    ctx.items + ChildItems(ctx.children)
  }

  function ChildItems(cs: seq<Child>): seq<Item> {
    if cs == [] then [] else cs[0].items + ChildItems(cs[1..])
  }

  lemma {:induction false} ChildItemsConcat(a: seq<Child>, b: seq<Child>)
    ensures ChildItems(a + b) == ChildItems(a) + ChildItems(b)
  {
    if a == [] {
      assert a + b == b;
    } else {
      assert (a + b)[1..] == a[1..] + b;
      ChildItemsConcat(a[1..], b);
    }
  }

  lemma ChildItemsUpdate(cs: seq<Child>, k: nat, c: Child)
    requires k < |cs|
    ensures multiset(ChildItems(cs[k := c])) + multiset(cs[k].items) == multiset(ChildItems(cs)) + multiset(c.items)
  {
    var a := cs[..k];
    var b := cs[k + 1..];
    assert cs == a + [cs[k]] + b;
    assert cs[k := c] == a + [c] + b;
    ChildItemsConcat(a + [cs[k]], b);
    ChildItemsConcat(a, [cs[k]]);
    ChildItemsConcat(a + [c], b);
    ChildItemsConcat(a, [c]);
    assert ChildItems([c]) == c.items by {
      assert [c][1..] == [];
    }
    assert ChildItems([cs[k]]) == cs[k].items by {
      assert [cs[k]][1..] == [];
    }
  }

  /** Replacing one list changes the context's items by exactly the difference of the lists. */
  lemma SetListItems(ctx: Context, l: ListRef, items: seq<Item>)
    requires ValidList(ctx, l)
    ensures multiset(AllItems(SetList(ctx, l, items))) + multiset(GetList(ctx, l)) == multiset(AllItems(ctx)) + multiset(items)
  {
    var c := SetList(ctx, l, items);
    match l
    case ChildList(k) =>
      var A, G, I := multiset(ctx.items), multiset(ctx.children[k].items), multiset(items);
      var M, M' := multiset(ChildItems(ctx.children)), multiset(ChildItems(c.children));
      ChildItemsUpdate(ctx.children, k, Child(ctx.children[k].name, items));
      assert M' + G == M + I;
      calc {
        multiset(AllItems(c)) + G;
        (A + M') + G;
        A + (M' + G);
        A + (M + I);
        (A + M) + I;
        multiset(AllItems(ctx)) + I;
      }
    case ParentList =>
      assert c.children == ctx.children;
  }

  /** `move_item` once both lists are resolved: pop the first item of that (type, id) from the
    * source, then insert it into the destination as it is after the pop; none if the source
    * has no such item. */
  function Moved(ctx: Context, r: ItemRef, from: ListRef, to: ListRef, idx: int): Option<Context>
    requires ValidList(ctx, from) && ValidList(ctx, to)
  {
    match FirstMatch(GetList(ctx, from), r)
    case None => None
    case Some(k) =>
      var src := GetList(ctx, from);
      var mid := SetList(ctx, from, Pop(src, k));
      Some(SetList(mid, to, InsertAt(GetList(mid, to), idx, src[k])))
  }

  /** A move fails exactly when the source has no such item; otherwise the context holds the
    * same items as before (so the same number), the names are unchanged, and the moved item is
    * the first of its (type, id) in the source, now at the requested place of the destination. */
  lemma MovedFacts(ctx: Context, r: ItemRef, from: ListRef, to: ListRef, idx: int)
    requires ValidList(ctx, from) && ValidList(ctx, to)
    ensures Moved(ctx, r, from, to, idx).None? <==> !Has(GetList(ctx, from), r)
    ensures Moved(ctx, r, from, to, idx).Some? ==>
              var c := Moved(ctx, r, from, to, idx).value;
              var k := FirstMatch(GetList(ctx, from), r).value;
              multiset(AllItems(c)) == multiset(AllItems(ctx)) && |AllItems(c)| == |AllItems(ctx)|
              && c.name == ctx.name && |c.children| == |ctx.children|
              && GetList(c, to) == InsertAt(GetList(SetList(ctx, from, Pop(GetList(ctx, from), k)), to), idx, GetList(ctx, from)[k])
  {
    match FirstMatch(GetList(ctx, from), r)
    case None =>
    case Some(k) =>
      var src := GetList(ctx, from);
      var mid := SetList(ctx, from, Pop(src, k));
      var dst := GetList(mid, to);
      var c := SetList(mid, to, InsertAt(dst, idx, src[k]));
      assert Moved(ctx, r, from, to, idx) == Some(c);
      MoveKeepsItems(ctx, from, to, k, idx);
      assert |multiset(AllItems(c))| == |AllItems(c)| && |multiset(AllItems(ctx))| == |AllItems(ctx)|;
      GetSetList(mid, to, InsertAt(dst, idx, src[k]));
  }

  lemma GetSetList(ctx: Context, l: ListRef, items: seq<Item>)
    requires ValidList(ctx, l)
    ensures ValidList(SetList(ctx, l, items), l) && GetList(SetList(ctx, l, items), l) == items
  {
  }

  /** Taking the `k`-th item out of one list and putting it into another keeps the multiset of
    * all the context's items. */
  lemma MoveKeepsItems(ctx: Context, from: ListRef, to: ListRef, k: nat, idx: int)
    requires ValidList(ctx, from) && ValidList(ctx, to) && k < |GetList(ctx, from)|
    ensures var src := GetList(ctx, from);
            var mid := SetList(ctx, from, Pop(src, k));
            multiset(AllItems(SetList(mid, to, InsertAt(GetList(mid, to), idx, src[k])))) == multiset(AllItems(ctx))
  {
    var src := GetList(ctx, from);
    var mid := SetList(ctx, from, Pop(src, k));
    var dst := GetList(mid, to);
    var c := SetList(mid, to, InsertAt(dst, idx, src[k]));
    PopKeepsItems(ctx, from, k);
    InsertKeepsItems(mid, to, idx, src[k]);
  }

  /** Taking out the `k`-th item of a list leaves all the items but that one. */
  lemma PopKeepsItems(ctx: Context, from: ListRef, k: nat)
    requires ValidList(ctx, from) && k < |GetList(ctx, from)|
    ensures var src := GetList(ctx, from);
            multiset(AllItems(SetList(ctx, from, Pop(src, k)))) + multiset{src[k]} == multiset(AllItems(ctx))
  {
    var src := GetList(ctx, from);
    var A, M := multiset(AllItems(ctx)), multiset(AllItems(SetList(ctx, from, Pop(src, k))));
    var P, X := multiset(Pop(src, k)), multiset{src[k]};
    PopInsertFacts(src, k, [], 0, src[k]);
    SetListItems(ctx, from, Pop(src, k));
    assert (M + X) + P == A + P by {
      assert M + multiset(src) == A + P;
      assert multiset(src) == P + X;
    }
    Cancel(M + X, A, P);
  }

  /** Putting an item into a list adds just that item. */
  lemma InsertKeepsItems(ctx: Context, to: ListRef, idx: int, x: Item)
    requires ValidList(ctx, to)
    ensures multiset(AllItems(SetList(ctx, to, InsertAt(GetList(ctx, to), idx, x)))) == multiset(AllItems(ctx)) + multiset{x}
  {
    var dst := GetList(ctx, to);
    var M, C := multiset(AllItems(ctx)), multiset(AllItems(SetList(ctx, to, InsertAt(dst, idx, x))));
    var D, X := multiset(dst), multiset{x};
    PopInsertFacts([x], 0, dst, idx, x);
    SetListItems(ctx, to, InsertAt(dst, idx, x));
    assert C + D == (M + X) + D by {
      assert C + D == M + multiset(InsertAt(dst, idx, x));
    }
    Cancel(C, M + X, D);
  }

  /** Multiset union cancels. */
  lemma Cancel<T>(a: multiset<T>, b: multiset<T>, d: multiset<T>)
    requires a + d == b + d
    ensures a == b
  {
    assert forall e :: a[e] == (a + d)[e] - d[e] && b[e] == (b + d)[e] - d[e];
  }

  // ---------------------------------------------------------------------------------------
  // reorder_items / reorder_child_items
  // ---------------------------------------------------------------------------------------

  /** The dict `{(i["type"], i["id"]): i for i in items}` as its values in insertion order: a
    * later item of a key already present replaces that entry's value in place. */
  function Collapse(items: seq<Item>): seq<Item> {
    if items == [] then []
    else
      var d := Collapse(items[..|items| - 1]);
      var x := items[|items| - 1];
      match FirstMatch(d, Key(x))
      case Some(j) => d[j := x]
      case None => d + [x]
  }

  /** The dict holds one entry per key of the items. */
  lemma {:induction false} CollapseKeys(items: seq<Item>)
    ensures DistinctKeys(Collapse(items))
    ensures forall r :: Has(Collapse(items), r) <==> Has(items, r)
  {
    if items != [] {
      var init := items[..|items| - 1];
      CollapseKeys(init);
      var d := Collapse(init);
      var x := items[|items| - 1];
      forall r
        ensures Has(Collapse(items), r) <==> Has(items, r)
      {
        if Has(items, r) && !Has(init, r) {
          assert Key(x) == r by {
            var i :| 0 <= i < |items| && Key(items[i]) == r;
          }
        }
        if Has(init, r) {
          var i :| 0 <= i < |init| && Key(init[i]) == r;
          assert items[i] == init[i];
        }
        match FirstMatch(d, Key(x))
        case Some(j) =>
          if Has(d, r) {
            var i :| 0 <= i < |d| && Key(d[i]) == r;
            assert Key(d[j := x][i]) == r;
          }
        case None =>
          if Has(d, r) {
            var i :| 0 <= i < |d| && Key(d[i]) == r;
            assert (d + [x])[i] == d[i];
          }
          assert (d + [x])[|d|] == x;
      }
    }
  }

  /** Items with distinct keys make a dict whose values are the items themselves, in order. */
  lemma {:induction false} CollapseDistinct(items: seq<Item>)
    requires DistinctKeys(items)
    ensures Collapse(items) == items
  {
    if items != [] {
      var init := items[..|items| - 1];
      CollapseDistinct(init);
      assert !Has(init, Key(items[|items| - 1]));
    }
  }

  /** The loop over the requested references: each one whose key is still in the dict is
    * popped from it and appended to the result. The picked items and what is left. */
  function Pick(d: seq<Item>, refs: seq<ItemRef>): (seq<Item>, seq<Item>) {
    if refs == [] then ([], d)
    else
      var (p, rest) := Pick(d, refs[..|refs| - 1]);
      match FirstMatch(rest, refs[|refs| - 1])
      case Some(j) => (p + [rest[j]], Pop(rest, j))
      case None => (p, rest)
  }

  /** `reorder_items`: the referenced items, then the dict's remaining values. */
  function Reordered(items: seq<Item>, refs: seq<ItemRef>): seq<Item> {
    var (p, rest) := Pick(Collapse(items), refs);
    p + rest
  }

  /** Picking moves items from the dict to the result and loses none. */
  lemma {:induction false} PickPermutation(d: seq<Item>, refs: seq<ItemRef>)
    ensures multiset(Pick(d, refs).0 + Pick(d, refs).1) == multiset(d)
  {
    if refs != [] {
      PickPermutation(d, refs[..|refs| - 1]);
      var (p, rest) := Pick(d, refs[..|refs| - 1]);
      match FirstMatch(rest, refs[|refs| - 1])
      case Some(j) =>
        PopInsertFacts(rest, j, [], 0, rest[j]);
      case None =>
    }
  }

  /** When the keys are distinct, what is left after picking is exactly the unreferenced items,
    * in their order. */
  lemma {:induction false} PickRest(d: seq<Item>, refs: seq<ItemRef>)
    requires DistinctKeys(d)
    ensures Pick(d, refs).1 == Unreferenced(d, refs)
  {
    if refs == [] {
      UnreferencedNoop(d, refs);
    } else {
      var init := refs[..|refs| - 1];
      var ref := refs[|refs| - 1];
      PickRest(d, init);
      var rest := Pick(d, init).1;
      UnreferencedDistinct(d, init);
      UnreferencedCompose(d, init, [ref]);
      assert init + [ref] == refs;
      match FirstMatch(rest, ref)
      case Some(j) =>
        PopUnique(rest, j);
      case None =>
        UnreferencedNoop(rest, [ref]);
    }
  }

  /** Filtering out a key no item has leaves the list as it is. */
  lemma KeyAbsent(d: seq<Item>, r: ItemRef)
    requires forall i :: 0 <= i < |d| ==> Key(d[i]) != r
    ensures Unreferenced(d, [r]) == d
  {
    UnreferencedNoop(d, [r]);
  }

  /** Popping the one item of a key is filtering that key out. */
  lemma {:induction false} PopUnique(s: seq<Item>, j: nat)
    requires DistinctKeys(s) && j < |s|
    ensures Pop(s, j) == Unreferenced(s, [Key(s[j])])
  {
    var ref := Key(s[j]);
    var a, b := s[..j], s[j + 1..];
    assert Unreferenced(a, [ref]) == a by {
      forall i | 0 <= i < |a| ensures Key(a[i]) != ref {
        assert a[i] == s[i];
      }
      KeyAbsent(a, ref);
    }
    assert Unreferenced(b, [ref]) == b by {
      forall i | 0 <= i < |b| ensures Key(b[i]) != ref {
        assert b[i] == s[j + 1 + i];
      }
      KeyAbsent(b, ref);
    }
    assert Unreferenced([s[j]], [ref]) == [] by {
      assert [s[j]][..0] == [];
    }
    UnreferencedConcat(a + [s[j]], b, [ref]);
    UnreferencedConcat(a, [s[j]], [ref]);
    assert s == a + [s[j]] + b;
  }

  /** Every picked item is one a reference names. */
  lemma {:induction false} PickKeys(d: seq<Item>, refs: seq<ItemRef>)
    ensures forall i :: 0 <= i < |Pick(d, refs).0| ==> Key(Pick(d, refs).0[i]) in refs
  {
    if refs != [] {
      var init := refs[..|refs| - 1];
      PickKeys(d, init);
      var (p, rest) := Pick(d, init);
      match FirstMatch(rest, refs[|refs| - 1])
      case Some(j) =>
        forall i | 0 <= i < |p| + 1
          ensures Key((p + [rest[j]])[i]) in refs
        {
          if i < |p| {
            assert Key(p[i]) in init;
          }
        }
      case None =>
        forall i | 0 <= i < |p|
          ensures Key(p[i]) in refs
        {
          assert Key(p[i]) in init;
        }
    }
  }

  /** The position of the first reference to a key. */
  function FirstRef(refs: seq<ItemRef>, r: ItemRef): (n: nat)
    requires r in refs
    ensures n < |refs| && refs[n] == r && r !in refs[..n]
  {
    if refs[0] == r then 0
    else
      var n := FirstRef(refs[1..], r);
      assert refs[..n + 1] == [refs[0]] + refs[1..][..n];
      n + 1
  }

  /** Items ordered by first reference among the first `n` references stay so among all. */
  lemma OrderExtends(refs: seq<ItemRef>, n: nat, p: seq<Item>)
    requires n <= |refs|
    requires forall i :: 0 <= i < |p| ==> Key(p[i]) in refs[..n]
    requires forall i, j :: 0 <= i < j < |p| ==> FirstRef(refs[..n], Key(p[i])) < FirstRef(refs[..n], Key(p[j]))
    ensures forall i, j :: 0 <= i < j < |p| ==> FirstRef(refs, Key(p[i])) < FirstRef(refs, Key(p[j]))
  {
    forall i, j | 0 <= i < j < |p|
      ensures FirstRef(refs, Key(p[i])) < FirstRef(refs, Key(p[j]))
    {
      FirstRefPrefix(refs, n, Key(p[i]));
      FirstRefPrefix(refs, n, Key(p[j]));
    }
  }

  /** A key referenced within a prefix is first referenced at the same place in the whole. */
  lemma FirstRefPrefix(refs: seq<ItemRef>, m: nat, r: ItemRef)
    requires m <= |refs| && r in refs[..m]
    ensures FirstRef(refs, r) == FirstRef(refs[..m], r) < m
  {
    var n := FirstRef(refs[..m], r);
    var n' := FirstRef(refs, r);
    assert refs[..m][..n] == refs[..n];
  }

  /** When the keys are distinct, the picked items come in the order of their first reference. */
  lemma {:induction false} PickOrder(d: seq<Item>, refs: seq<ItemRef>)
    requires DistinctKeys(d)
    ensures var p := Pick(d, refs).0;
            (forall i :: 0 <= i < |p| ==> Key(p[i]) in refs)
            && forall i, j :: 0 <= i < j < |p| ==> FirstRef(refs, Key(p[i])) < FirstRef(refs, Key(p[j]))
  {
    PickKeys(d, refs);
    if refs != [] {
      var n := |refs| - 1;
      var init := refs[..n];
      var ref := refs[n];
      PickOrder(d, init);
      PickKeys(d, init);
      PickRest(d, init);
      var (p, rest) := Pick(d, init);
      match FirstMatch(rest, ref)
      case Some(j) =>
        UnreferencedMembers(d, init);
        assert rest[j] in rest;
        assert ref !in init;
        assert FirstRef(refs, ref) == n by {
          assert refs[..n] == init;
        }
        OrderExtends(refs, n, p);
        var q := p + [rest[j]];
        forall i, k | 0 <= i < k < |q|
          ensures FirstRef(refs, Key(q[i])) < FirstRef(refs, Key(q[k]))
        {
          if k == |p| {
            FirstRefPrefix(refs, n, Key(p[i]));
          }
        }
      case None =>
        OrderExtends(refs, n, p);
    }
  }

  /** With distinct keys `reorder_items` is a permutation: the referenced items first, in the
    * order of their first reference, then the others in their original order. */
  lemma ReorderFacts(items: seq<Item>, refs: seq<ItemRef>)
    requires DistinctKeys(items)
    ensures var r := Reordered(items, refs);
            var rest := Unreferenced(items, refs);
            multiset(r) == multiset(items)
            && |rest| <= |r| && r[|r| - |rest|..] == rest
            && (forall i :: 0 <= i < |r| - |rest| ==> Key(r[i]) in refs)
            && (forall i, j :: 0 <= i < j < |r| - |rest| ==> FirstRef(refs, Key(r[i])) < FirstRef(refs, Key(r[j])))
  {
    CollapseDistinct(items);
    var p, rest := Pick(items, refs).0, Pick(items, refs).1;
    var r := p + rest;
    assert Reordered(items, refs) == r;
    PickPermutation(items, refs);
    PickRest(items, refs);
    PickOrder(items, refs);
    assert |r| - |rest| == |p| && r[|p|..] == rest;
    assert forall i :: 0 <= i < |p| ==> r[i] == p[i];
  }

  /** Two items of one key (instructions may share an id) collapse into one: the later item,
    * in the earlier one's place. */
  lemma ReorderCollapsesDuplicates(a: Item, b: Item)
    requires Key(a) == Key(b)
    ensures Reordered([a, b], []) == [b]
  {
    assert [a, b][..1] == [a];
    assert Collapse([a]) == [a] by {
      assert [a][..0] == [];
    }
  }

  /** The two loops of `reorder_items`: build the dict, then pop the referenced entries in
    * request order, and append what is left. */
  method Reorder(items: seq<Item>, refs: seq<ItemRef>) returns (r: seq<Item>)
    ensures r == Reordered(items, refs)
  {
    var byKey: seq<Item> := [];
    for i := 0 to |items|
      invariant byKey == Collapse(items[..i])
    {
      assert items[..i + 1][..i] == items[..i];
      match FirstMatch(byKey, Key(items[i]))
      case Some(j) => byKey := byKey[j := items[i]];
      case None => byKey := byKey + [items[i]];
    }
    assert items[..|items|] == items;
    var d := byKey;
    var reordered: seq<Item> := [];
    for k := 0 to |refs|
      invariant (reordered, byKey) == Pick(d, refs[..k])
    {
      assert refs[..k + 1][..k] == refs[..k];
      match FirstMatch(byKey, refs[k])
      case Some(j) =>
        reordered := reordered + [byKey[j]];
        byKey := Pop(byKey, j);
      case None =>
    }
    assert refs[..|refs|] == refs;
    r := reordered + byKey;
  }
}
