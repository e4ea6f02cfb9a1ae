/** The Confluence router's own logic (backend/app/routers/confluence.py): finding a configured
  * space, the REST prefix of the deployment type, a page's parent from its ancestors, and the
  * page tree built in place from the flat page list. The REST calls are not modelled. */
module Confluence {
  import opened Wrappers
  import opened Strs

  datatype Space = Space(key: string, name: string)

  /** `_find_space`: the first configured space whose key equals the requested one once both
    * are upper-cased; 404 when there is none. */
  function FindSpace(spaces: seq<Space>, key: string): (r: Result<Space, HttpError>)
    ensures r.Err? <==> forall i :: 0 <= i < |spaces| ==> Upper(spaces[i].key) != Upper(key)
    ensures r.Err? ==> r.error == HttpError(404, "Space '" + key + "' not configured")
    ensures r.Ok? ==> exists i :: 0 <= i < |spaces| && spaces[i] == r.value && Upper(spaces[i].key) == Upper(key)
                                 && forall j :: 0 <= j < i ==> Upper(spaces[j].key) != Upper(key)
  {
    if spaces == [] then Err(HttpError(404, "Space '" + key + "' not configured"))
    else if Upper(spaces[0].key) == Upper(key) then Ok(spaces[0])
    else
      var r := FindSpace(spaces[1..], key);
      if r.Ok? then
        ghost var i :| 0 <= i < |spaces[1..]| && spaces[1..][i] == r.value && Upper(spaces[1..][i].key) == Upper(key)
                       && forall j :: 0 <= j < i ==> Upper(spaces[1..][j].key) != Upper(key);
        assert spaces[i + 1] == r.value && forall j :: 0 < j < i + 1 ==> spaces[j] == spaces[1..][j - 1];
        r
      else r
  }

  /** `_wiki_prefix`: cloud deployments serve the REST API under `/wiki`. */
  function WikiPrefix(deploymentType: string): (r: string)
    ensures r == "/wiki" <==> deploymentType == "cloud"
    ensures r != "/wiki" ==> r == ""
  {
    if deploymentType == "cloud" then "/wiki" else ""
  }

  /** A page as the API returns it: its id, title and version when present, and the ids of its
    * ancestors from the space root down. */
  datatype ApiPage = ApiPage(id: string, title: Option<string>, ancestors: seq<string>, version: Option<int>)

  /** The parent of a page: its nearest ancestor, the last of the list. */
  function ParentId(ancestors: seq<string>): (r: Option<string>)
    ensures r.None? <==> ancestors == []
    ensures r.Some? ==> r.value == ancestors[|ancestors| - 1]
  {
    if ancestors == [] then None else Some(ancestors[|ancestors| - 1])
  }

  // ---------------------------------------------------------------------------------------
  // _build_page_tree
  // ---------------------------------------------------------------------------------------

  /** A page of the flat list; only its `children` list is ever updated. */
  class Page {
    const id: string
    const title: string
    const parentId: Option<string>
    const version: int
    var children: seq<Page>

    /** The record `_fetch_pages_flat` makes for a page: no title reads as empty, no version as
      * 1, and the children list starts empty. */
    constructor FromApi(p: ApiPage)
      ensures id == p.id && title == p.title.GetOr("") && parentId == ParentId(p.ancestors)
      ensures version == p.version.GetOr(1) && children == []
    {
      id := p.id;
      title := p.title.GetOr("");
      parentId := ParentId(p.ancestors);
      version := p.version.GetOr(1);
      children := [];
    }
  }

  /** `{p["id"]: p for p in pages}`: every id to the last page carrying it (see `IndexLastWins`). */
  function IndexOf(pages: seq<Page>): (m: map<string, Page>)
    ensures forall k :: k in m <==> exists i :: 0 <= i < |pages| && pages[i].id == k
    ensures forall k :: k in m ==> m[k] in pages && m[k].id == k
  {
    if pages == [] then map[]
    else
      var front := pages[..|pages| - 1];
      var last := pages[|pages| - 1];
      assert forall i :: 0 <= i < |front| ==> front[i] == pages[i];
      IndexOf(front)[last.id := last]
  }

  /** The page an id indexes is the last one of the list with that id. */
  lemma {:induction false} IndexLastWins(pages: seq<Page>, k: string)
    requires k in IndexOf(pages)
    ensures exists i :: 0 <= i < |pages| && pages[i] == IndexOf(pages)[k]
                        && forall j :: i < j < |pages| ==> pages[j].id != k
  {
    var n := |pages| - 1;
    var front := pages[..n];
    if pages[n].id != k {
      assert forall i :: 0 <= i < |front| ==> front[i] == pages[i];
      IndexLastWins(front, k);
      var i :| 0 <= i < |front| && front[i] == IndexOf(front)[k] && forall j :: i < j < |front| ==> front[j].id != k;
      assert pages[i] == IndexOf(pages)[k];
      assert forall j :: i < j < |pages| ==> pages[j].id != k by {
        forall j | i < j < |pages|
          ensures pages[j].id != k
        {
          if j < n {
            assert pages[j] == front[j];
          }
        }
      }
    } else {
      assert pages[n] == IndexOf(pages)[k];
    }
  }

  /** A page goes under a parent when its `parent_id` is non-empty and some page has that id. */
  predicate Attached(m: map<string, Page>, q: Page) {
    q.parentId.Some? && q.parentId.value != "" && q.parentId.value in m
  }

  /** The pages left as roots, in input order. */
  function Roots(m: map<string, Page>, qs: seq<Page>): seq<Page> {
    if qs == [] then []
    else
      var last := qs[|qs| - 1];
      Roots(m, qs[..|qs| - 1]) + (if Attached(m, last) then [] else [last])
  }

  /** The pages placed under page `p`, in input order. */
  function Under(m: map<string, Page>, qs: seq<Page>, p: Page): seq<Page> {
    if qs == [] then []
    else
      var last := qs[|qs| - 1];
      Under(m, qs[..|qs| - 1], p) + (if Attached(m, last) && m[last.parentId.value] == p then [last] else [])
  }

  /** The roots are exactly the pages of the list with no known parent. */
  lemma {:induction false} RootsMembers(m: map<string, Page>, qs: seq<Page>)
    ensures forall i :: 0 <= i < |Roots(m, qs)| ==> Roots(m, qs)[i] in qs && !Attached(m, Roots(m, qs)[i])
    ensures forall i :: 0 <= i < |qs| && !Attached(m, qs[i]) ==> qs[i] in Roots(m, qs)
  {
    if qs != [] {
      var front := qs[..|qs| - 1];
      RootsMembers(m, front);
      assert qs == front + [qs[|qs| - 1]];
    }
  }

  /** The pages under `p` are exactly the pages of the list whose parent id indexes `p`. */
  lemma {:induction false} UnderMembers(m: map<string, Page>, qs: seq<Page>, p: Page)
    ensures forall i :: 0 <= i < |Under(m, qs, p)| ==>
              Under(m, qs, p)[i] in qs && Attached(m, Under(m, qs, p)[i]) && m[Under(m, qs, p)[i].parentId.value] == p
    ensures forall i :: 0 <= i < |qs| && Attached(m, qs[i]) && m[qs[i].parentId.value] == p ==> qs[i] in Under(m, qs, p)
  {
    if qs != [] {
      var front := qs[..|qs| - 1];
      UnderMembers(m, front, p);
      assert qs == front + [qs[|qs| - 1]];
    }
  }

  /** `_build_page_tree`: each page with a known parent is appended to that parent's children
    * (the page object itself, so the tree shares the list's pages), the others become roots.
    * Every page's children are its old children followed by the pages placed under it. */
  method BuildPageTree(pages: seq<Page>) returns (roots: seq<Page>)
    modifies set p | p in pages
    ensures roots == Roots(IndexOf(pages), pages)
    ensures forall p :: p in pages ==> p.children == old(p.children) + Under(IndexOf(pages), pages, p)
  {
    var byId := IndexPages(pages);
    roots := [];
    for i := 0 to |pages|
      invariant roots == Roots(byId, pages[..i])
      invariant forall p :: p in pages ==> p.children == old(p.children) + Under(byId, pages[..i], p)
    {
      var page := pages[i];
      TreeStep(byId, pages, i);
      if page.parentId.Some? && page.parentId.value != "" && page.parentId.value in byId {
        var owner := byId[page.parentId.value];
        label before:
        owner.children := owner.children + [page];
        forall p | p in pages
          ensures p.children == old(p.children) + Under(byId, pages[..i + 1], p)
        {
          if p != owner {
            assert p.children == old@before(p.children);
          }
        }
      } else {
        roots := roots + [page];
      }
    }
    assert pages[..|pages|] == pages;
  }

  /** One more page of the list is one more root or one more page under its parent. */
  lemma TreeStep(m: map<string, Page>, pages: seq<Page>, i: nat)
    requires i < |pages|
    ensures Roots(m, pages[..i + 1]) == Roots(m, pages[..i]) + (if Attached(m, pages[i]) then [] else [pages[i]])
    ensures forall p :: Under(m, pages[..i + 1], p) ==
              Under(m, pages[..i], p) + (if Attached(m, pages[i]) && m[pages[i].parentId.value] == p then [pages[i]] else [])
  {
    assert pages[..i + 1][..i] == pages[..i] && pages[..i + 1][i] == pages[i];
  }

  /** The loop building `by_id`. */
  method IndexPages(pages: seq<Page>) returns (byId: map<string, Page>)
    ensures byId == IndexOf(pages)
  {
    byId := map[];
    for i := 0 to |pages|
      invariant byId == IndexOf(pages[..i])
    {
      assert pages[..i + 1][..i] == pages[..i];
      byId := byId[pages[i].id := pages[i]];
    }
    assert pages[..|pages|] == pages;
  }

  /** Every page of the list is placed exactly once: it is a root exactly when it has no known
    * parent, and otherwise it is under the page its parent id indexes and under no other. */
  lemma PlacedOnce(pages: seq<Page>, q: Page)
    requires q in pages
    ensures var m := IndexOf(pages);
            && (q in Roots(m, pages) <==> !Attached(m, q))
            && (Attached(m, q) ==> m[q.parentId.value] in pages && q in Under(m, pages, m[q.parentId.value]))
            && forall p :: q in Under(m, pages, p) ==> Attached(m, q) && p == m[q.parentId.value]
  {
    var m := IndexOf(pages);
    RootsMembers(m, pages);
    var i :| 0 <= i < |pages| && pages[i] == q;
    if Attached(m, q) {
      UnderMembers(m, pages, m[q.parentId.value]);
    }
    forall p | q in Under(m, pages, p)
      ensures Attached(m, q) && p == m[q.parentId.value]
    {
      UnderMembers(m, pages, p);
    }
  }

  /** The roots and the attached pages split the list: together they are as many as the pages. */
  lemma {:induction false} RootsAndAttached(m: map<string, Page>, qs: seq<Page>)
    ensures |Roots(m, qs)| + |set i | 0 <= i < |qs| && Attached(m, qs[i])| == |qs|
  {
    if qs != [] {
      var n := |qs| - 1;
      var front := qs[..n];
      RootsAndAttached(m, front);
      var a := set i | 0 <= i < n && Attached(m, front[i]);
      var b := set i | 0 <= i < |qs| && Attached(m, qs[i]);
      if Attached(m, qs[n]) {
        assert b == a + {n};
      } else {
        assert b == a;
      }
    }
  }
}
