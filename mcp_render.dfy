/** The context rendering of backend/app/mcp_server.py: a context path is expanded into one
  * section per item, with mixin items expanded recursively in place and a child's `parent`
  * placeholder standing for the parent's items; a visited set stops mixin cycles. The cached
  * Confluence pages, Jira issues and repository files the sections show are inputs. */
module McpRender {
  import opened Wrappers
  import opened Strs
  import opened ContextModel
  import opened ContextMixins

  /** One rendered item: its type, id, label and text. */
  datatype Section = Section(kind: string, id: string, labelText: string, content: string)

  datatype JiraComment = JiraComment(author: string, created: string, body: string)

  /** A cached Jira issue, with the defaults of missing fields applied. */
  datatype JiraIssue = JiraIssue(status: string, issueType: string, priority: string, assignee: string,
                                 description: string, comments: seq<JiraComment>)

  /** A cached Confluence page: its space key and its text once cleaned of HTML. */
  datatype CachedPage = CachedPage(spaceKey: string, text: string)

  /** What rendering reads besides the contexts: the configured Confluence spaces in order, the
    * page cache by (space, page id), the issue cache by (project, issue key), and for the item
    * fields this model does not carry, a repository's `path` and the rendering of a repository
    * file (which reads the file). */
  datatype Sources = Sources(spaces: seq<string>, pages: map<(string, string), CachedPage>,
                             issues: map<(string, string), JiraIssue>,
                             path: Item -> string, repoFile: Item -> string)

  // ---------------------------------------------------------------------------------------
  // The per-item renderers
  // ---------------------------------------------------------------------------------------

  /** The first configured space whose cache holds the page. */
  function CachedSpace(spaces: seq<string>, pages: map<(string, string), CachedPage>, pageId: string): (r: Option<nat>)
    ensures r.None? <==> forall i :: 0 <= i < |spaces| ==> (spaces[i], pageId) !in pages
    ensures r.Some? ==> r.value < |spaces| && (spaces[r.value], pageId) in pages
                        && forall i :: 0 <= i < r.value ==> (spaces[i], pageId) !in pages
  {
    if spaces == [] then None
    else if (spaces[0], pageId) in pages then Some(0)
    else match CachedSpace(spaces[1..], pages, pageId)
      case None => None
      case Some(k) => Some(k + 1)
  }

  function RenderConfluencePage(src: Sources, pageId: string, labelText: string): string {
    match CachedSpace(src.spaces, src.pages, pageId)
    case Some(k) =>
      var page := src.pages[(src.spaces[k], pageId)];
      "## " + labelText + " (Confluence Page)\n**Space:** " + page.spaceKey + " | **Page ID:** " + pageId + "\n\n" + page.text
    case None =>
      "## " + labelText + " (Confluence Page)\n**Page ID:** " + pageId + "\n\n(Page not found in cache)"
  }

  /** At most the first `n` characters (`s[:n]`). */
  function Take(s: string, n: nat): string {
    if |s| <= n then s else s[..n]
  }

  function Min(a: nat, b: nat): nat {
    if a <= b then a else b
  }

  /** The comments shown: the first ten at most. */
  const MaxComments := 10

  function CommentLine(c: JiraComment): string {
    "\n**" + c.author + "** (" + Take(c.created, 10) + "):\n" + c.body
  }

  function CommentLines(cs: seq<JiraComment>): (r: seq<string>)
    ensures |r| == |cs|
  {
    seq(|cs|, i requires 0 <= i < |cs| => CommentLine(cs[i]))
  }

  /** The lines of a cached issue: header and status line, then the assignee and description
    * when they are non-empty, then a comment count and the first ten comments at most. */
  function JiraLines(issue: JiraIssue, key: string, labelText: string): seq<string> {
    var n := |issue.comments|;
    ["## " + labelText + " (" + key + ")",
     "**Status:** " + issue.status + " | **Type:** " + issue.issueType + " | **Priority:** " + issue.priority]
    + (if issue.assignee != "" then ["**Assignee:** " + issue.assignee] else [])
    + (if issue.description != "" then ["\n### Description\n" + issue.description] else [])
    + (if n > 0 then ["\n### Comments (" + NatToString(n) + ")"] + CommentLines(issue.comments[..Min(n, MaxComments)]) else [])
  }

  function InvalidKeyText(key: string, labelText: string): string {
    "## " + labelText + " (" + key + ")\n\n(Invalid issue key format)"
  }

  /** `_render_jira_issue`: a key without `-` is malformed; otherwise the issue is looked up under
    * the project part before the first `-`. */
  function RenderJiraIssue(src: Sources, key: string, labelText: string): string {
    match SplitFirst(key, '-')
    case (_, None) => InvalidKeyText(key, labelText)
    case (project, Some(_)) =>
      if (project, key) !in src.issues then "## " + labelText + " (" + key + ")\n\n(Issue not found in cache)"
      else Join("\n", JiraLines(src.issues[(project, key)], key, labelText))
  }

  /** A key without `-` renders as malformed whatever the cache holds; a key with one is looked
    * up, and its issue shows at most ten comments: the first ones, in order, after the count. */
  lemma JiraKeyAndComments(src: Sources, key: string, labelText: string)
    ensures '-' !in key ==> RenderJiraIssue(src, key, labelText) == InvalidKeyText(key, labelText)
    ensures '-' in key && (SplitFirst(key, '-').0, key) in src.issues ==>
              var issue := src.issues[(SplitFirst(key, '-').0, key)];
              var lines := JiraLines(issue, key, labelText);
              var m := Min(|issue.comments|, MaxComments);
              && RenderJiraIssue(src, key, labelText) == Join("\n", lines)
              && m <= MaxComments && |lines| <= 5 + MaxComments
              && lines[|lines| - m..] == CommentLines(issue.comments[..m])
  {
    if '-' in key {
      var project := SplitFirst(key, '-').0;
      if (project, key) in src.issues {
        var issue := src.issues[(project, key)];
        var lines := JiraLines(issue, key, labelText);
        var m := Min(|issue.comments|, MaxComments);
        if m > 0 {
          assert lines[|lines| - m..] == CommentLines(issue.comments[..m]);
        }
      }
    }
  }

  function RenderInstructions(labelText: string, text: string): string {
    "## " + labelText + " (Instructions)\n\n" + text
  }

  function RenderGitRepo(repo: string, labelText: string, path: string): string {
    "## " + labelText + " (Git Repository)\n**Repository:** " + repo + "\n**Checkout path:** " + path
  }

  /** The text of one item, by its type. */
  function Content(it: Item, src: Sources): string {
    if it.kind == "confluence_page" then RenderConfluencePage(src, it.id, it.labelText)
    else if it.kind == "jira_issue" then RenderJiraIssue(src, it.id, it.labelText)
    else if it.kind == "instructions" then RenderInstructions(it.labelText, it.text)
    else if it.kind == "git_repo" then RenderGitRepo(it.id, it.labelText, src.path(it))
    else if it.kind == "repo_file" then src.repoFile(it)
    else "Unknown item: " + it.kind + " / " + it.id
  }

  function SectionOf(it: Item, src: Sources): Section {
    Section(it.kind, it.id, it.labelText, Content(it, src))
  }

  /** One section per item, in order. */
  function Rendered(items: seq<Item>, src: Sources): (r: seq<Section>)
    ensures |r| == |items|
  {
    seq(|items|, i requires 0 <= i < |items| => SectionOf(items[i], src))
  }

  lemma RenderedConcat(a: seq<Item>, b: seq<Item>, src: Sources)
    ensures Rendered(a + b, src) == Rendered(a, src) + Rendered(b, src)
  {
  }

  /** `_render_items`: a section for every item, carrying its type, id and label. */
  method RenderItems(items: seq<Item>, src: Sources) returns (sections: seq<Section>)
    ensures |sections| == |items|
    ensures forall i :: 0 <= i < |items| ==>
              && sections[i].kind == items[i].kind && sections[i].id == items[i].id
              && sections[i].labelText == items[i].labelText && sections[i].content == Content(items[i], src)
  {
    sections := [];
    for i := 0 to |items|
      invariant sections == Rendered(items[..i], src)
    {
      var it := items[i];
      sections := sections + [Section(it.kind, it.id, it.labelText, Content(it, src))];
    }
    assert items[..|items|] == items;
  }

  // ---------------------------------------------------------------------------------------
  // render_context_sections
  // ---------------------------------------------------------------------------------------

  /** The sections of an expansion, the visited set after it, and the paths it expanded, in
    * the order it expanded them. */
  datatype Expansion = Expansion(sections: seq<Section>, visited: set<string>, expanded: seq<string>)

  predicate Distinct(s: seq<string>) {
    forall i, j :: 0 <= i < j < |s| ==> s[i] != s[j]
  }

  /** Every mixin among the items names a path of the universe. */
  predicate MixinsWithin(items: seq<Item>, u: set<string>) {
    forall it :: it in items && it.kind == "mixin" ==> it.id in u
  }

  /** What an expansion from visited set `v` leaves: the visited set grows by exactly the
    * expanded paths, each expanded once and none visited before. */
  ghost predicate Grows(v: set<string>, e: Expansion) {
    && v <= e.visited
    && (forall x :: x in e.visited <==> x in v || x in e.expanded)
    && Distinct(e.expanded)
    && (forall x :: x in e.expanded ==> x !in v)
  }

  lemma LeftFewer(u: set<string>, v: set<string>, w: set<string>)
    requires v <= w
    ensures |u - w| <= |u - v|
  {
    assert u - w <= u - v;
    SubsetCard(u - w, u - v);
  }

  lemma {:induction false} SubsetCard(a: set<string>, b: set<string>)
    requires a <= b
    ensures |a| <= |b|
    decreases |b|
  {
    if a != {} {
      var x :| x in a;
      SubsetCard(a - {x}, b - {x});
    }
  }

  lemma LeftOneFewer(u: set<string>, v: set<string>, x: string)
    requires x in u && x !in v
    ensures |u - (v + {x})| < |u - v|
  {
    assert u - (v + {x}) == (u - v) - {x};
  }

  /** Two expansions in a row: the second starts from the visited set the first left. */
  function Then(e1: Expansion, e2: Expansion): Expansion {
    Expansion(e1.sections + e2.sections, e2.visited, e1.expanded + e2.expanded)
  }

  lemma ThenGrows(v: set<string>, e1: Expansion, e2: Expansion)
    requires Grows(v, e1) && Grows(e1.visited, e2)
    ensures Grows(v, Then(e1, e2))
  {
    var s := e1.expanded + e2.expanded;
    forall i, j | 0 <= i < j < |s|
      ensures s[i] != s[j]
    {
      if i < |e1.expanded| <= j {
        assert s[i] in e1.visited && s[j] == e2.expanded[j - |e1.expanded|];
      }
    }
  }

  /** The mixins of a file's items and of each child's items, as read, are mentioned paths. */
  lemma FileMixinsWithin(files: Files, parent: string, u: set<string>)
    requires parent in files && Mentioned(files) <= u
    ensures ContextWithin(Normalized(files[parent]), u)
  {
    var s := files[parent];
    forall it | it in Normalized(s).items && it.kind == "mixin"
      ensures it.id in u
    {
      assert it.id in ItemsMixins(s.items.GetOr([]));
      assert it.id in FileMixins(s);
    }
    var cs := s.children.GetOr([]);
    forall k, it | 0 <= k < |Normalized(s).children| && it in Normalized(s).children[k].items && it.kind == "mixin"
      ensures it.id in u
    {
      NormalChildMixins(cs[k]);
      assert it.id in ItemsMixins(cs[k].items.GetOr([]));
      ChildrenMixinsMembers(cs, it.id);
      assert cs[k] in cs;
      assert it.id in FileMixins(s);
    }
  }

  /** The mixins of a context's items and of each child's items are paths of the universe. */
  predicate ContextWithin(ctx: Context, u: set<string>) {
    && MixinsWithin(ctx.items, u)
    && forall k :: 0 <= k < |ctx.children| ==> MixinsWithin(ctx.children[k].items, u)
  }

  /** What `render_context_sections(name, v)` renders and visits. A visited path renders
    * nothing; otherwise the path is marked visited first. A missing file renders nothing;
    * otherwise the context read from it is expanded. */
  ghost function Expand(files: Files, src: Sources, u: set<string>, name: string, v: set<string>): (r: Expansion)
    requires Mentioned(files) <= u && name in u
    ensures Grows(v, r)
    decreases |u - v|, 0, 0
  {
    if name in v then Expansion([], v, [])
    else
      var v' := v + {name};
      var parent := SplitPath(name).0;
      if parent !in files then Expansion([], v', [name])
      else
        FileMixinsWithin(files, parent, u);
        LeftOneFewer(u, v, name);
        var e := ExpandContext(files, src, u, name, Normalized(files[parent]), v');
        ThenGrows(v, Expansion([], v', [name]), e);
        Then(Expansion([], v', [name]), e)
  }

  /** The expansion of path `name` once its context `ctx` is read: a path `parent` renders the
    * parent's items, each mixin expanded in its place; a path `parent/child` renders the
    * child's items the same way with its placeholder standing for the parent's items, or, for
    * an unknown child, the parent's items without expansion. */
  ghost function ExpandContext(files: Files, src: Sources, u: set<string>, name: string, ctx: Context, v: set<string>): (r: Expansion)
    requires Mentioned(files) <= u && ContextWithin(ctx, u)
    ensures Grows(v, r)
    decreases |u - v|, 3, 0
  {
    match ChildPart(name)
    case None => ExpandTop(files, src, u, ctx.items, v)
    case Some(c) =>
      match FindChild(ctx.children, c)
      case None => Expansion(Rendered(ctx.items, src), v, [])
      case Some(k) => ExpandChild(files, src, u, ctx.children[k].items, ctx.items, v)
  }

  /** The parent's items at the top level: a mixin is expanded in place, anything else
    * rendered. */
  ghost function ExpandTop(files: Files, src: Sources, u: set<string>, items: seq<Item>, v: set<string>): (r: Expansion)
    requires Mentioned(files) <= u && MixinsWithin(items, u)
    ensures Grows(v, r)
    decreases |u - v|, 1, |items|
  {
    if items == [] then Expansion([], v, [])
    else
      var e1 := if items[0].kind == "mixin" then Expand(files, src, u, items[0].id, v)
                else Expansion([SectionOf(items[0], src)], v, []);
      LeftFewer(u, v, e1.visited);
      var e2 := ExpandTop(files, src, u, items[1..], e1.visited);
      ThenGrows(v, e1, e2);
      Then(e1, e2)
  }

  /** A child's items: its placeholder expands into the parent's items (as at the top level),
    * a mixin is expanded in place, anything else rendered. */
  ghost function ExpandChild(files: Files, src: Sources, u: set<string>, items: seq<Item>, parentItems: seq<Item>, v: set<string>): (r: Expansion)
    requires Mentioned(files) <= u && MixinsWithin(items, u) && MixinsWithin(parentItems, u)
    ensures Grows(v, r)
    decreases |u - v|, 2, |items|
  {
    if items == [] then Expansion([], v, [])
    else
      var e1 := if items[0].kind == "parent" then ExpandTop(files, src, u, parentItems, v)
                else if items[0].kind == "mixin" then Expand(files, src, u, items[0].id, v)
                else Expansion([SectionOf(items[0], src)], v, []);
      LeftFewer(u, v, e1.visited);
      var e2 := ExpandChild(files, src, u, items[1..], parentItems, e1.visited);
      ThenGrows(v, e1, e2);
      Then(e1, e2)
  }

  lemma ThenAssoc(a: Expansion, b: Expansion, c: Expansion)
    ensures Then(Then(a, b), c) == Then(a, Then(b, c))
  {
    assert (a.sections + b.sections) + c.sections == a.sections + (b.sections + c.sections);
    assert (a.expanded + b.expanded) + c.expanded == a.expanded + (b.expanded + c.expanded);
  }

  /** `render_context_sections(name, visited)`, with `visited` passed in and handed back rather
    * than shared; `u` is a set of paths holding the name and every mentioned path, which only
    * the proof of termination uses. */
  method RenderContextSections(files: Files, src: Sources, name: string, visited: set<string>, ghost u: set<string>)
    returns (sections: seq<Section>, visited': set<string>, ghost expanded: seq<string>)
    requires Mentioned(files) <= u && name in u
    ensures Expansion(sections, visited', expanded) == Expand(files, src, u, name, visited)
    decreases |u - visited|, 0, 0
  {
    if name in visited {
      return [], visited, [];
    }
    visited' := visited + {name};
    var parent := SplitPath(name).0;
    if parent !in files {
      return [], visited', [name];
    }
    var ctx := ReadContext(files[parent]);
    FileMixinsWithin(files, parent, u);
    LeftOneFewer(u, visited, name);
    var s, w, x := RenderContext(files, src, name, ctx, visited', u);
    sections, visited', expanded := s, w, [name] + x;
  }

  /** The rest of `render_context_sections` once the context is read. */
  method RenderContext(files: Files, src: Sources, name: string, ctx: Context, v: set<string>, ghost u: set<string>)
    returns (sections: seq<Section>, w: set<string>, ghost x: seq<string>)
    requires Mentioned(files) <= u && ContextWithin(ctx, u)
    ensures Expansion(sections, w, x) == ExpandContext(files, src, u, name, ctx, v)
    decreases |u - v|, 3, 0
  {
    var child := ChildPart(name);
    if child.None? {
      sections, w, x := RenderTop(files, src, ctx.items, v, u);
    } else {
      var k := FindChild(ctx.children, child.value);
      if k.None? {
        sections := RenderItems(ctx.items, src);
        assert sections == Rendered(ctx.items, src);
        w, x := v, [];
      } else {
        sections, w, x := RenderChild(files, src, ctx.children[k.value].items, ctx.items, v, u);
      }
    }
  }

  /** The loop over a context's own items: mixins expand in place, the rest render. */
  method RenderTop(files: Files, src: Sources, items: seq<Item>, v: set<string>, ghost u: set<string>)
    returns (sections: seq<Section>, w: set<string>, ghost x: seq<string>)
    requires Mentioned(files) <= u && MixinsWithin(items, u)
    ensures Expansion(sections, w, x) == ExpandTop(files, src, u, items, v)
    decreases |u - v|, 1, |items|
  {
    sections, w, x := [], v, [];
    assert items[0..] == items;
    for i := 0 to |items|
      invariant v <= w && MixinsWithin(items[i..], u)
      invariant Then(Expansion(sections, w, x), ExpandTop(files, src, u, items[i..], w)) == ExpandTop(files, src, u, items, v)
    {
      TopStep(files, src, u, items, i, w);
      LeftFewer(u, v, w);
      var s1, w1, x1 := RenderTopItem(files, src, items[i], w, u);
      ThenAssoc(Expansion(sections, w, x), Expansion(s1, w1, x1), ExpandTop(files, src, u, items[i + 1..], w1));
      sections, w, x := sections + s1, w1, x + x1;
    }
  }

  /** What one of a context's own items expands to. */
  ghost function TopItem(files: Files, src: Sources, u: set<string>, it: Item, v: set<string>): (r: Expansion)
    requires Mentioned(files) <= u && (it.kind == "mixin" ==> it.id in u)
    ensures v <= r.visited
  {
    if it.kind == "mixin" then Expand(files, src, u, it.id, v) else Expansion([SectionOf(it, src)], v, [])
  }

  /** What one of a child's items expands to. */
  ghost function ChildItem(files: Files, src: Sources, u: set<string>, it: Item, parentItems: seq<Item>, v: set<string>): (r: Expansion)
    requires Mentioned(files) <= u && (it.kind == "mixin" ==> it.id in u) && MixinsWithin(parentItems, u)
    ensures v <= r.visited
  {
    if it.kind == "parent" then ExpandTop(files, src, u, parentItems, v)
    else if it.kind == "mixin" then Expand(files, src, u, it.id, v)
    else Expansion([SectionOf(it, src)], v, [])
  }

  /** One of a context's own items: a mixin expands in place, the rest render. */
  method RenderTopItem(files: Files, src: Sources, it: Item, v: set<string>, ghost u: set<string>)
    returns (sections: seq<Section>, w: set<string>, ghost x: seq<string>)
    requires Mentioned(files) <= u && (it.kind == "mixin" ==> it.id in u)
    ensures Expansion(sections, w, x) == TopItem(files, src, u, it, v)
    decreases |u - v|, 1, 0
  {
    if it.kind == "mixin" {
      sections, w, x := RenderContextSections(files, src, it.id, v, u);
    } else {
      sections, w, x := [SectionOf(it, src)], v, [];
    }
  }

  /** One of a child's items: the placeholder renders the parent's items (their mixins
    * expanded), a mixin expands in place, the rest render. */
  method RenderChildItem(files: Files, src: Sources, it: Item, parentItems: seq<Item>, v: set<string>, ghost u: set<string>)
    returns (sections: seq<Section>, w: set<string>, ghost x: seq<string>)
    requires Mentioned(files) <= u && (it.kind == "mixin" ==> it.id in u) && MixinsWithin(parentItems, u)
    ensures Expansion(sections, w, x) == ChildItem(files, src, u, it, parentItems, v)
    decreases |u - v|, 2, 0
  {
    if it.kind == "parent" {
      sections, w, x := RenderTop(files, src, parentItems, v, u);
    } else if it.kind == "mixin" {
      sections, w, x := RenderContextSections(files, src, it.id, v, u);
    } else {
      sections, w, x := [SectionOf(it, src)], v, [];
    }
  }

  /** The expansion of a context's items from the `i`-th on: that item's, then the rest's. */
  lemma TopStep(files: Files, src: Sources, u: set<string>, items: seq<Item>, i: nat, w: set<string>)
    requires Mentioned(files) <= u && MixinsWithin(items, u) && i < |items|
    ensures items[i].kind == "mixin" ==> items[i].id in u
    ensures MixinsWithin(items[i..], u) && MixinsWithin(items[i + 1..], u)
    ensures var e1 := TopItem(files, src, u, items[i], w);
            ExpandTop(files, src, u, items[i..], w) == Then(e1, ExpandTop(files, src, u, items[i + 1..], e1.visited))
  {
    assert items[i] in items;
    assert items[i..][0] == items[i] && items[i..][1..] == items[i + 1..];
    assert forall it :: it in items[i..] ==> it in items;
  }

  /** The expansion of a child's items from the `i`-th on: that item's, then the rest's. */
  lemma ChildStep(files: Files, src: Sources, u: set<string>, items: seq<Item>, parentItems: seq<Item>, i: nat, w: set<string>)
    requires Mentioned(files) <= u && MixinsWithin(items, u) && MixinsWithin(parentItems, u) && i < |items|
    ensures items[i].kind == "mixin" ==> items[i].id in u
    ensures MixinsWithin(items[i..], u) && MixinsWithin(items[i + 1..], u)
    ensures var e1 := ChildItem(files, src, u, items[i], parentItems, w);
            ExpandChild(files, src, u, items[i..], parentItems, w) == Then(e1, ExpandChild(files, src, u, items[i + 1..], parentItems, e1.visited))
  {
    assert items[i] in items;
    assert items[i..][0] == items[i] && items[i..][1..] == items[i + 1..];
    assert forall it :: it in items[i..] ==> it in items;
  }

  /** The loop over a child's items: the placeholder renders the parent's items (their mixins
    * expanded), a mixin expands in place, the rest render. */
  method RenderChild(files: Files, src: Sources, items: seq<Item>, parentItems: seq<Item>, v: set<string>, ghost u: set<string>)
    returns (sections: seq<Section>, w: set<string>, ghost x: seq<string>)
    requires Mentioned(files) <= u && MixinsWithin(items, u) && MixinsWithin(parentItems, u)
    ensures Expansion(sections, w, x) == ExpandChild(files, src, u, items, parentItems, v)
    decreases |u - v|, 2, |items|
  {
    sections, w, x := [], v, [];
    assert items[0..] == items;
    for i := 0 to |items|
      invariant v <= w && MixinsWithin(items[i..], u)
      invariant Then(Expansion(sections, w, x), ExpandChild(files, src, u, items[i..], parentItems, w))
                == ExpandChild(files, src, u, items, parentItems, v)
    {
      ChildStep(files, src, u, items, parentItems, i, w);
      LeftFewer(u, v, w);
      var s1, w1, x1 := RenderChildItem(files, src, items[i], parentItems, w, u);
      ThenAssoc(Expansion(sections, w, x), Expansion(s1, w1, x1), ExpandChild(files, src, u, items[i + 1..], parentItems, w1));
      sections, w, x := sections + s1, w1, x + x1;
    }
  }

  // ---------------------------------------------------------------------------------------
  // What a path shows
  // ---------------------------------------------------------------------------------------

  predicate NoMixins(items: seq<Item>) {
    forall it :: it in items ==> it.kind != "mixin"
  }

  /** A child's items with each placeholder replaced by the parent's items. */
  function Flattened(items: seq<Item>, parentItems: seq<Item>): seq<Item> {
    if items == [] then []
    else (if items[0].kind == "parent" then parentItems else [items[0]]) + Flattened(items[1..], parentItems)
  }

  /** A child with a single placeholder, in front as reading puts it, shows the parent's items
    * first and then its own. */
  lemma {:induction false} FlattenedFront(rest: seq<Item>, parentItems: seq<Item>)
    requires !HasParent(rest)
    ensures Flattened([Placeholder] + rest, parentItems) == parentItems + rest
  {
    assert ([Placeholder] + rest)[1..] == rest;
    NoParentFlat(rest, parentItems);
  }

  lemma {:induction false} NoParentFlat(items: seq<Item>, parentItems: seq<Item>)
    requires !HasParent(items)
    ensures Flattened(items, parentItems) == items
  {
    if items != [] {
      assert items[0].kind != "parent";
      assert !HasParent(items[1..]) by {
        forall i | 0 <= i < |items[1..]|
          ensures items[1..][i].kind != "parent"
        {
          assert items[1..][i] == items[i + 1];
        }
      }
      NoParentFlat(items[1..], parentItems);
    }
  }

  /** The items a path shows when no mixin is involved: a context's own items, a known child's
    * items with the parent's in place of its placeholder, or for an unknown child the parent's
    * items. */
  function Shown(ctx: Context, child: Option<string>): seq<Item> {
    match child
    case None => ctx.items
    case Some(c) =>
      match FindChild(ctx.children, c)
      case None => ctx.items
      case Some(k) => Flattened(ctx.children[k].items, ctx.items)
  }

  lemma {:induction false} TopWithoutMixins(files: Files, src: Sources, u: set<string>, items: seq<Item>, v: set<string>)
    requires Mentioned(files) <= u && MixinsWithin(items, u) && NoMixins(items)
    ensures ExpandTop(files, src, u, items, v) == Expansion(Rendered(items, src), v, [])
    decreases |items|
  {
    if items != [] {
      var rest := items[1..];
      assert items == [items[0]] + rest;
      assert items[0].kind != "mixin" by {
        assert items[0] in items;
      }
      assert NoMixins(rest) && MixinsWithin(rest, u) by {
        forall it | it in rest
          ensures it in items
        {
        }
      }
      var e1 := Expansion([SectionOf(items[0], src)], v, []);
      assert ExpandTop(files, src, u, items, v) == Then(e1, ExpandTop(files, src, u, rest, v));
      TopWithoutMixins(files, src, u, rest, v);
      assert Rendered([items[0]], src) == [SectionOf(items[0], src)];
      RenderedConcat([items[0]], rest, src);
    }
  }

  lemma {:induction false} ChildWithoutMixins(files: Files, src: Sources, u: set<string>, items: seq<Item>, parentItems: seq<Item>, v: set<string>)
    requires Mentioned(files) <= u && MixinsWithin(items, u) && MixinsWithin(parentItems, u)
    requires NoMixins(items) && NoMixins(parentItems)
    ensures ExpandChild(files, src, u, items, parentItems, v) == Expansion(Rendered(Flattened(items, parentItems), src), v, [])
    decreases |items|
  {
    if items != [] {
      var rest := items[1..];
      assert items[0].kind != "mixin" by {
        assert items[0] in items;
      }
      assert NoMixins(rest) && MixinsWithin(rest, u) by {
        forall it | it in rest
          ensures it in items
        {
        }
      }
      ChildWithoutMixins(files, src, u, rest, parentItems, v);
      var first := if items[0].kind == "parent" then parentItems else [items[0]];
      var e1 := Expansion(Rendered(first, src), v, []);
      if items[0].kind == "parent" {
        TopWithoutMixins(files, src, u, parentItems, v);
      } else {
        assert Rendered([items[0]], src) == [SectionOf(items[0], src)];
      }
      assert ExpandChild(files, src, u, items, parentItems, v) == Then(e1, ExpandChild(files, src, u, rest, parentItems, v));
      assert Flattened(items, parentItems) == first + Flattened(rest, parentItems);
      RenderedConcat(first, Flattened(rest, parentItems), src);
    }
  }

  /** Without mixins, a path not yet visited renders exactly the items it shows, one section
    * each and in order, and only the path itself is marked visited. */
  lemma ExpandWithoutMixins(files: Files, src: Sources, u: set<string>, name: string, v: set<string>)
    requires Mentioned(files) <= u && name in u && name !in v
    requires SplitPath(name).0 in files
    requires var ctx := Normalized(files[SplitPath(name).0]);
             NoMixins(ctx.items) && forall k :: 0 <= k < |ctx.children| ==> NoMixins(ctx.children[k].items)
    ensures var ctx := Normalized(files[SplitPath(name).0]);
            Expand(files, src, u, name, v) == Expansion(Rendered(Shown(ctx, ChildPart(name)), src), v + {name}, [name])
  {
    var parent := SplitPath(name).0;
    var ctx := Normalized(files[parent]);
    FileMixinsWithin(files, parent, u);
    var v' := v + {name};
    match ChildPart(name)
    case None =>
      TopWithoutMixins(files, src, u, ctx.items, v');
    case Some(c) =>
      match FindChild(ctx.children, c)
      case None =>
      case Some(k) =>
        ChildWithoutMixins(files, src, u, ctx.children[k].items, ctx.items, v');
  }

  /** A context whose only item is a mixin of itself renders nothing: the cycle is cut at the
    * second visit. */
  lemma SelfMixinCut(files: Files, src: Sources, u: set<string>, name: string, m: Item)
    requires Mentioned(files) <= u && name in u && '/' !in name && name in files
    requires m.kind == "mixin" && m.id == name && Normalized(files[name]).items == [m]
    ensures Expand(files, src, u, name, {}) == Expansion([], {name}, [name])
  {
    assert SplitPath(name) == (name, None) && ChildPart(name) == None;
    FileMixinsWithin(files, name, u);
    var e := ExpandContext(files, src, u, name, Normalized(files[name]), {name});
    assert Expand(files, src, u, name, {name}) == Expansion([], {name}, []);
    assert [m][1..] == [];
    assert ExpandTop(files, src, u, [m], {name}) == Then(Expansion([], {name}, []), ExpandTop(files, src, u, [], {name}));
    assert e == Expansion([], {name}, []);
    var none: set<string> := {};
    assert none + {name} == {name};
    assert Expand(files, src, u, name, {}) == Then(Expansion([], {name}, [name]), e);
  }

  // ---------------------------------------------------------------------------------------
  // get_context
  // ---------------------------------------------------------------------------------------

  /** The type shown in the table of contents; an unknown type shows as itself. */
  function TypeLabel(kind: string): string {
    if kind == "confluence_page" then "Confluence"
    else if kind == "jira_issue" then "Jira"
    else if kind == "instructions" then "Instructions"
    else if kind == "git_repo" then "Git Repo"
    else if kind == "repo_file" then "File"
    else kind
  }

  function CountLine(n: nat): string {
    "This context contains " + NatToString(n) + " item" + (if n != 1 then "s" else "") + ":"
  }

  function TocEntry(i: nat, s: Section): string {
    NatToString(i) + ". [" + TypeLabel(s.kind) + "] " + s.labelText
  }

  function Begin(labelText: string): string {
    "######### " + labelText + " BEGIN #########"
  }

  function End(labelText: string): string {
    "######### " + labelText + " END #########"
  }

  function DelimiterNote(firstLabel: string): string {
    "Each item is delimited by " + Begin("<item name>") + " and " + End("<item name>") + ". For example: " + Begin(firstLabel)
  }

  /** The table of contents: a heading, the item count, one numbered entry per section, and a
    * note on the delimiters naming the first section. */
  function Toc(name: string, sections: seq<Section>): seq<string>
    requires sections != []
  {
    ["# Context: " + name, "", CountLine(|sections|)]
    + seq(|sections|, i requires 0 <= i < |sections| => TocEntry(i + 1, sections[i]))
    + ["", DelimiterNote(sections[0].labelText)]
  }

  /** A section between its BEGIN and END lines. */
  function Block(s: Section): string {
    Begin(s.labelText) + "\n\n" + s.content + "\n\n" + End(s.labelText)
  }

  function Blocks(sections: seq<Section>): (r: seq<string>)
    ensures |r| == |sections|
  {
    seq(|sections|, i requires 0 <= i < |sections| => Block(sections[i]))
  }

  /** The answer for a context path given what it renders: a missing or an empty context is
    * reported, otherwise the table of contents followed by the delimited sections. */
  function Reply(files: Files, name: string, sections: seq<Section>): string {
    if sections == [] then
      if name !in files then "Context '" + name + "' not found."
      else "Context '" + name + "' exists but has no items."
    else Join("\n", Toc(name, sections)) + "\n\n" + Join("\n\n", Blocks(sections))
  }

  /** `get_context(name)`: renders the path from an empty visited set and formats the result. */
  method GetContext(files: Files, src: Sources, name: string) returns (text: string)
    ensures text == Reply(files, name, Expand(files, src, {name} + Mentioned(files), name, {}).sections)
  {
    ghost var u := {name} + Mentioned(files);
    var sections, _, _ := RenderContextSections(files, src, name, {}, u);
    if sections == [] {
      if name !in files {
        return "Context '" + name + "' not found.";
      }
      return "Context '" + name + "' exists but has no items.";
    }
    var toc := TocLines(name, sections);
    var parts := BlockLines(sections);
    text := Join("\n", toc) + "\n\n" + Join("\n\n", parts);
  }

  /** The loop building the table of contents, entries numbered from 1. */
  method TocLines(name: string, sections: seq<Section>) returns (toc: seq<string>)
    requires sections != []
    ensures toc == Toc(name, sections)
  {
    var n := |sections|;
    toc := ["# Context: " + name, "", CountLine(n)];
    for i := 0 to n
      invariant toc == ["# Context: " + name, "", CountLine(n)]
                       + seq(i, j requires 0 <= j < i => TocEntry(j + 1, sections[j]))
    {
      toc := toc + [TocEntry(i + 1, sections[i])];
    }
    toc := toc + ["", DelimiterNote(sections[0].labelText)];
  }

  /** The loop wrapping each section in its delimiters. */
  method BlockLines(sections: seq<Section>) returns (parts: seq<string>)
    ensures parts == Blocks(sections)
  {
    parts := [];
    for i := 0 to |sections|
      invariant parts == Blocks(sections[..i])
    {
      parts := parts + [Block(sections[i])];
    }
    assert sections[..|sections|] == sections;
  }

  /** The table of contents numbers its entries from 1 in the order of the sections, each with
    * its type and label, between the count line and the delimiter note. */
  lemma TocNumbered(name: string, sections: seq<Section>)
    requires sections != []
    ensures |Toc(name, sections)| == |sections| + 5
    ensures Toc(name, sections)[2] == CountLine(|sections|)
    ensures forall i :: 0 <= i < |sections| ==>
              Toc(name, sections)[i + 3] == NatToString(i + 1) + ". [" + TypeLabel(sections[i].kind) + "] " + sections[i].labelText
    ensures Toc(name, sections)[|sections| + 4] == DelimiterNote(sections[0].labelText)
  {
    var head := ["# Context: " + name, "", CountLine(|sections|)];
    var body := seq(|sections|, i requires 0 <= i < |sections| => TocEntry(i + 1, sections[i]));
    var toc := head + body + ["", DelimiterNote(sections[0].labelText)];
    assert Toc(name, sections) == toc;
    TocBody(head, body, ["", DelimiterNote(sections[0].labelText)], sections);
  }

  lemma TocBody(head: seq<string>, body: seq<string>, tail: seq<string>, sections: seq<Section>)
    requires |head| == 3 && body == seq(|sections|, i requires 0 <= i < |sections| => TocEntry(i + 1, sections[i]))
    ensures forall i :: 0 <= i < |sections| ==>
              (head + body + tail)[i + 3] == NatToString(i + 1) + ". [" + TypeLabel(sections[i].kind) + "] " + sections[i].labelText
  {
    forall i | 0 <= i < |sections|
      ensures (head + body + tail)[i + 3] == NatToString(i + 1) + ". [" + TypeLabel(sections[i].kind) + "] " + sections[i].labelText
    {
      assert (head + body + tail)[i + 3] == body[i] == TocEntry(i + 1, sections[i]);
    }
  }

  /** The count line says "item" for one item and "items" for any other number. */
  lemma CountWording(n: nat)
    ensures EndsWith(CountLine(n), "s:") <==> n != 1
  {
    var d := NatToString(n);
    var line := CountLine(n);
    if n == 1 {
      assert line == "This context contains " + d + " item:";
      assert line[|line| - 2..] == "m:";
    } else {
      assert line == ("This context contains " + d + " item") + "s:";
      SuffixAppend("This context contains " + d + " item", "s:");
    }
  }

  /** A block gives its section's content back once its BEGIN and END lines are removed. */
  lemma BlockContent(s: Section)
    ensures RemoveSuffix(RemovePrefix(Block(s), Begin(s.labelText) + "\n\n"), "\n\n" + End(s.labelText)) == s.content
  {
    var head := Begin(s.labelText) + "\n\n";
    var tail := "\n\n" + End(s.labelText);
    assert Block(s) == head + (s.content + tail);
    PrefixAppend(head, s.content + tail);
    SuffixAppend(s.content, tail);
  }

  /** A context path without `/` whose file is missing is reported as not found. */
  lemma MissingContext(files: Files, src: Sources, name: string)
    requires '/' !in name && name !in files
    ensures Reply(files, name, Expand(files, src, {name} + Mentioned(files), name, {}).sections)
            == "Context '" + name + "' not found."
  {
    assert SplitPath(name).0 == name;
  }
}
