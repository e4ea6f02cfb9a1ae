/** The functional-documentation analyzer (backend/app/analyzers/functional_doc.py): the page ids
  * of a cached Confluence space in tree order, the choice of AI provider, the prompt sent for a
  * page (cut to a maximum length), the near-empty page rule and the reply's fence removal. The
  * AI call, the HTML cleaning and the JSON parsing of the reply are inputs. */
module FunctionalDoc {
  import opened Wrappers
  import opened Strs
  import opened Fences
  import opened AiConfig

  // ---------------------------------------------------------------------------------------
  // _collect_page_ids
  // ---------------------------------------------------------------------------------------

  /** A page of the cached space index, with its child pages (a missing list reads as empty). */
  datatype IndexPage = IndexPage(id: string, children: seq<IndexPage>)

  /** The ids of a list of page trees, each page before its children, siblings in order. */
  function Preorder(pages: seq<IndexPage>): seq<string>
    decreases pages
  {
    if pages == [] then []
    else
      assert pages[0] in pages;
      [pages[0].id] + Preorder(pages[0].children) + Preorder(pages[1..])
  }

  /** The number of pages in a list of trees. */
  function Size(pages: seq<IndexPage>): nat
    decreases pages
  {
    if pages == [] then 0
    else
      assert pages[0] in pages;
      1 + Size(pages[0].children) + Size(pages[1..])
  }

  /** The walk of consecutive sibling lists is the walk of each in turn. */
  lemma {:induction false} PreorderAppend(a: seq<IndexPage>, b: seq<IndexPage>)
    ensures Preorder(a + b) == Preorder(a) + Preorder(b)
    decreases a
  {
    if a == [] {
      assert a + b == b;
    } else {
      assert (a + b)[0] == a[0] && (a + b)[1..] == a[1..] + b;
      PreorderAppend(a[1..], b);
    }
  }

  /** Every page of the trees is listed exactly once: the walk has one id per page. */
  lemma {:induction false} PreorderSize(pages: seq<IndexPage>)
    ensures |Preorder(pages)| == Size(pages)
    decreases pages
  {
    if pages != [] {
      assert pages[0] in pages;
      PreorderSize(pages[0].children);
      PreorderSize(pages[1..]);
    }
  }

  /** Page `i` of a sibling list comes right after the walks of the siblings before it, and its
    * children's walk right after it. */
  lemma PreorderLayout(pages: seq<IndexPage>, i: nat)
    requires i < |pages|
    ensures var off := |Preorder(pages[..i])|;
            var sub := Preorder(pages[i].children);
            && off + 1 + |sub| <= |Preorder(pages)|
            && Preorder(pages)[off] == pages[i].id
            && Preorder(pages)[off + 1..off + 1 + |sub|] == sub
  {
    var rest := pages[i..];
    assert pages == pages[..i] + rest;
    PreorderAppend(pages[..i], rest);
    assert rest[0] == pages[i];
    var off := |Preorder(pages[..i])|;
    var sub := Preorder(pages[i].children);
    assert Preorder(rest) == [pages[i].id] + sub + Preorder(rest[1..]);
    assert Preorder(pages) == Preorder(pages[..i]) + ([pages[i].id] + sub + Preorder(rest[1..]));
  }

  /** `_walk`, appending to the list of ids found so far. */
  method Walk(pages: seq<IndexPage>, ids: seq<string>) returns (out: seq<string>)
    ensures out == ids + Preorder(pages)
    decreases pages
  {
    out := ids;
    for i := 0 to |pages|
      invariant out == ids + Preorder(pages[..i])
    {
      var p := pages[i];
      assert p in pages;
      PreorderSnoc(pages, i);
      out := out + [p.id];
      if p.children != [] {
        out := Walk(p.children, out);
      }
    }
    assert pages[..|pages|] == pages;
  }

  /** The walk of one more sibling is the walk so far, that page's id and its children's walk. */
  lemma PreorderSnoc(pages: seq<IndexPage>, i: nat)
    requires i < |pages|
    ensures Preorder(pages[..i + 1]) == Preorder(pages[..i]) + [pages[i].id] + Preorder(pages[i].children)
  {
    var p := pages[i];
    assert pages[..i + 1] == pages[..i] + [p];
    PreorderAppend(pages[..i], [p]);
    assert Preorder([p]) == [p.id] + Preorder(p.children) + Preorder([p][1..]);
  }

  /** `_collect_page_ids`: no index gives no ids; otherwise every page of the index in preorder. */
  method CollectPageIds(index: Option<seq<IndexPage>>) returns (ids: seq<string>)
    ensures index.None? ==> ids == []
    ensures index.Some? ==> ids == Preorder(index.value) && |ids| == Size(index.value)
  {
    if index.None? {
      return [];
    }
    ids := Walk(index.value, []);
    PreorderSize(index.value);
  }

  // ---------------------------------------------------------------------------------------
  // _find_provider
  // ---------------------------------------------------------------------------------------

  const NoProvider := "No AI provider configured. Add one in Settings > AI Providers."

  /** `_find_provider`: the provider the `functional_doc` task names, else the first provider;
    * it fails exactly when no provider is configured. */
  function FindProvider(cfg: Config): (r: Result<Provider, string>)
    ensures r.Err? <==> cfg.providers == []
    ensures r.Err? ==> r.error == NoProvider
    ensures r.Ok? ==> r.value in cfg.providers
    ensures TaskProvider(cfg, "functional_doc").Some? ==> r == Ok(TaskProvider(cfg, "functional_doc").value)
    ensures TaskProvider(cfg, "functional_doc").None? && cfg.providers != [] ==> r == Ok(cfg.providers[0])
  {
    match TaskProvider(cfg, "functional_doc")
    case Some(p) => Ok(p)
    case None => if cfg.providers != [] then Ok(cfg.providers[0]) else Err(NoProvider)
  }

  // ---------------------------------------------------------------------------------------
  // One page
  // ---------------------------------------------------------------------------------------

  /** The longest prompt sent as is. */
  const MaxContent := 30000

  const TruncationMarker := "\n\n[... truncated ...]"

  /** A prompt longer than the maximum is cut to its first `MaxContent` characters and marked. */
  function Truncate(s: string): (r: string)
    ensures |s| <= MaxContent ==> r == s
    ensures |s| > MaxContent ==> r == s[..MaxContent] + TruncationMarker
    ensures |r| <= MaxContent + |TruncationMarker|
  {
    if |s| > MaxContent then s[..MaxContent] + TruncationMarker else s
  }

  /** The prompt for a page: its title, where it sits (the ancestors' titles joined by " > ",
    * when that is not empty), and its cleaned text. */
  function UserContent(title: string, cleanText: string, ancestorTitles: seq<string>): string {
    var breadcrumb := Join(" > ", ancestorTitles);
    "Document title: " + title + "\n"
    + (if breadcrumb != "" then "Location: " + breadcrumb + " > " + title + "\n" else "")
    + "\n---\n\n" + cleanText
  }

  /** The structured description of a page (its remaining lists are not modelled). */
  datatype DocResult = DocResult(docType: string, domain: string, summary: string, tags: seq<string>)

  /** What a page whose cleaned text is nearly empty is described as, without asking the AI. */
  const EmptyPageResult := DocResult("overview", "", "Empty or navigation-only page.", [])

  /** Cleaned text shorter than this once stripped counts as nearly empty. */
  const MinText := 20

  datatype PageOutcome = Processed(result: DocResult) | Failed

  /** One page of `run`: a nearly empty page gets the fixed overview; otherwise the AI is asked
    * with the (cut) prompt, its reply loses its fence and is parsed. A reply whose fence cannot
    * be removed, or that does not parse, counts as an error. */
  function ProcessPage(title: string, cleanText: string, ancestorTitles: seq<string>,
                       ask: string -> string, parse: string -> Option<DocResult>): PageOutcome
  {
    if |Strip(cleanText)| < MinText then Processed(EmptyPageResult)
    else
      match StripFences(ask(Truncate(UserContent(title, cleanText, ancestorTitles))))
      case None => Failed
      case Some(raw) => match parse(raw) case None => Failed case Some(d) => Processed(d)
  }

  /** A nearly empty page is described the same way whatever the AI would answer: it is never
    * sent. */
  lemma NearEmptySkipsAi(title: string, cleanText: string, ancestorTitles: seq<string>,
                         ask1: string -> string, parse1: string -> Option<DocResult>,
                         ask2: string -> string, parse2: string -> Option<DocResult>)
    ensures |Strip(cleanText)| < MinText ==>
              ProcessPage(title, cleanText, ancestorTitles, ask1, parse1) == Processed(EmptyPageResult)
              && ProcessPage(title, cleanText, ancestorTitles, ask2, parse2) == Processed(EmptyPageResult)
  {
  }
}
