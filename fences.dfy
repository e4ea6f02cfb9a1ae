/** Removing a Markdown code fence around an AI reply, as both the functional-documentation
  * analyzer (backend/app/analyzers/functional_doc.py) and the query router
  * (backend/app/routers/query.py) do: a stripped reply that starts with a fence loses its first
  * line and everything from the last fence on, and is stripped again. */
module Fences {
  import opened Wrappers
  import opened Strs

  const Fence := "```"

  predicate FenceAt(s: string, j: int) {
    0 <= j && j + 3 <= |s| && s[j] == '`' && s[j + 1] == '`' && s[j + 2] == '`'
  }

  /** `s.rfind("```")`: the start of the last fence in `s`. */
  function LastFence(s: string): (r: Option<nat>)
    ensures r.Some? ==> FenceAt(s, r.value) && forall j :: r.value < j ==> !FenceAt(s, j)
    ensures r.None? ==> forall j :: !FenceAt(s, j)
    decreases |s|
  {
    if |s| < 3 then None
    else if FenceAt(s, |s| - 3) then Some(|s| - 3)
    else
      var r := LastFence(s[..|s| - 1]);
      assert forall j :: FenceAt(s, j) && j + 3 < |s| ==> FenceAt(s[..|s| - 1], j);
      r
  }

  /** `s.rsplit("```", 1)[0]`: everything before the last fence, or all of `s` without one. */
  function BeforeLastFence(s: string): (r: string)
    ensures r <= s
  {
    match LastFence(s)
    case None => s
    case Some(i) => s[..i]
  }

  /** The reply with its fence removed; `None` when it starts with a fence but has no line
    * break, where `split("\n", 1)[1]` raises. */
  function StripFences(reply: string): (r: Option<string>)
    ensures !(Fence <= Strip(reply)) ==> r == Some(Strip(reply))
    ensures r.None? <==> Fence <= Strip(reply) && '\n' !in Strip(reply)
  {
    var raw := Strip(reply);
    if !(Fence <= raw) then Some(raw)
    else
      match SplitFirst(raw, '\n')
      case (_, None) => None
      case (_, Some(rest)) => Some(Strip(BeforeLastFence(rest)))
  }

  /** Splitting at the first `c` of `a + [c] + b`, when `a` has none, gives `a` and `b`. */
  lemma SplitFirstAt(a: string, c: char, b: string)
    requires c !in a
    ensures SplitFirst(a + [c] + b, c) == (a, Some(b))
  {
    var s := a + [c] + b;
    assert s[|a|] == c;
    var r := SplitFirst(s, c);
    assert r.1.Some?;
    var p := r.0;
    assert p == s[..|a|] == a;
    assert r.1.value == s[|a| + 1..] == b;
  }

  /** A reply fenced as "```lang", a line break, a body, a line break and "```" gives back the
    * stripped body (with the line break before the closing fence). */
  lemma FencedReply(lang: string, body: string)
    requires '\n' !in lang
    ensures StripFences("```" + lang + "\n" + body + "\n```") == Some(Strip(body + "\n"))
  {
    var reply := "```" + lang + "\n" + body + "\n```";
    StripNoop(reply);
    assert Fence <= reply;
    var head := "```" + lang;
    var rest := body + "\n```";
    assert reply == head + ['\n'] + rest;
    assert '\n' !in head;
    SplitFirstAt(head, '\n', rest);
    assert FenceAt(rest, |rest| - 3);
    assert BeforeLastFence(rest) == body + "\n";
  }
}
