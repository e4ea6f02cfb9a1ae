/** String helpers shared by the model: Python's `strip`, `split`, `join`, `upper` and `str(int)`
  * on `seq<char>`. Whitespace and case are ASCII only. */
module Strs {
  import opened Wrappers

  /** Characters Python's `str.strip()` and the regex class `\s` treat as whitespace (ASCII part). */
  predicate IsSpace(c: char) {
    // space, \t \n \v \f \r, and the separators 0x1c-0x1f
    c == ' ' || 9 <= c as int <= 13 || 28 <= c as int <= 31
  }

  /** `s.lstrip()` */
  function LStrip(s: string): string {
    if s != [] && IsSpace(s[0]) then LStrip(s[1..]) else s
  }

  /** `s.rstrip()` */
  function RStrip(s: string): string {
    if s != [] && IsSpace(s[|s| - 1]) then RStrip(s[..|s| - 1]) else s
  }

  /** `s.strip()` */
  function Strip(s: string): string {
    RStrip(LStrip(s))
  }

  /** `lstrip()` removes a whitespace prefix and stops at the first other character. */
  lemma {:induction false} LStripFacts(s: string)
    ensures |LStrip(s)| <= |s| && LStrip(s) == s[|s| - |LStrip(s)|..]
    ensures LStrip(s) != [] ==> !IsSpace(LStrip(s)[0])
    ensures forall i :: 0 <= i < |s| - |LStrip(s)| ==> IsSpace(s[i])
  {
    if s != [] && IsSpace(s[0]) {
      LStripFacts(s[1..]);
      assert forall i :: 1 <= i < |s| - |LStrip(s)| ==> s[i] == s[1..][i - 1];
    }
  }

  /** `rstrip()` removes a whitespace suffix and stops at the last other character. */
  lemma {:induction false} RStripFacts(s: string)
    ensures |RStrip(s)| <= |s| && RStrip(s) == s[..|RStrip(s)|]
    ensures RStrip(s) != [] ==> !IsSpace(RStrip(s)[|RStrip(s)| - 1])
    ensures forall i :: |RStrip(s)| <= i < |s| ==> IsSpace(s[i])
  {
    if s != [] && IsSpace(s[|s| - 1]) {
      RStripFacts(s[..|s| - 1]);
    }
  }

  /** `s.lstrip(c)` for a single character `c`. */
  function LStripChar(s: string, c: char): string {
    if s != [] && s[0] == c then LStripChar(s[1..], c) else s
  }

  /** `s.rstrip(c)` for a single character `c`. */
  function RStripChar(s: string, c: char): string {
    if s != [] && s[|s| - 1] == c then RStripChar(s[..|s| - 1], c) else s
  }

  /** `s.strip(c)` for a single character `c`. */
  function StripChar(s: string, c: char): string {
    RStripChar(LStripChar(s, c), c)
  }

  /** `lstrip(c)` removes the longest prefix made of `c` only. */
  lemma {:induction false} LStripCharFacts(s: string, c: char)
    ensures |LStripChar(s, c)| <= |s| && LStripChar(s, c) == s[|s| - |LStripChar(s, c)|..]
    ensures LStripChar(s, c) != [] ==> LStripChar(s, c)[0] != c
    ensures forall i :: 0 <= i < |s| - |LStripChar(s, c)| ==> s[i] == c
  {
    if s != [] && s[0] == c {
      LStripCharFacts(s[1..], c);
      assert forall i :: 1 <= i < |s| - |LStripChar(s, c)| ==> s[i] == s[1..][i - 1];
    }
  }

  /** `rstrip(c)` removes the longest suffix made of `c` only. */
  lemma {:induction false} RStripCharFacts(s: string, c: char)
    ensures |RStripChar(s, c)| <= |s| && RStripChar(s, c) == s[..|RStripChar(s, c)|]
    ensures RStripChar(s, c) != [] ==> RStripChar(s, c)[|RStripChar(s, c)| - 1] != c
    ensures forall i :: |RStripChar(s, c)| <= i < |s| ==> s[i] == c
  {
    if s != [] && s[|s| - 1] == c {
      RStripCharFacts(s[..|s| - 1], c);
    }
  }

  /** Index of the first occurrence of `c` in `s`, if any. */
  function Find(s: string, c: char): (r: Option<nat>)
    ensures r.None? <==> c !in s
    ensures r.Some? ==> r.value < |s| && s[r.value] == c && c !in s[..r.value]
  {
    if s == [] then None
    else if s[0] == c then Some(0)
    else match Find(s[1..], c)
      case None => None
      case Some(k) => Some(k + 1)
  }

  /** Index of the last occurrence of `c` in `s`, if any (`str.rfind`). */
  function RFind(s: string, c: char): (r: Option<nat>)
    ensures r.None? <==> c !in s
    ensures r.Some? ==> r.value < |s| && s[r.value] == c && c !in s[r.value + 1..]
  {
    if s == [] then None
    else if s[|s| - 1] == c then Some(|s| - 1)
    else RFind(s[..|s| - 1], c)
  }

  /** `s.split(c, 1)`: the text before the first `c`, and the text after it when there is one. */
  function SplitFirst(s: string, c: char): (r: (string, Option<string>))
    ensures r.1.None? ==> r.0 == s && c !in s
    ensures r.1.Some? ==> s == r.0 + [c] + r.1.value && c !in r.0
  {
    match Find(s, c)
    case None => (s, None)
    case Some(k) => (s[..k], Some(s[k + 1..]))
  }

  /** `s.split(c)[-1]` (equally `s.rsplit(c, 1)[-1]`): the text after the last `c`. */
  function LastSegment(s: string, c: char): string
  {
    if s == [] || s[|s| - 1] == c then []
    else LastSegment(s[..|s| - 1], c) + [s[|s| - 1]]
  }

  /** `sep.join(parts)` */
  function Join(sep: string, parts: seq<string>): string {
    if parts == [] then ""
    else if |parts| == 1 then parts[0]
    else parts[0] + sep + Join(sep, parts[1..])
  }

  /** ASCII `str.upper()` */
  function Upper(s: string): (r: string)
    ensures |r| == |s|
  {
    seq(|s|, i requires 0 <= i < |s| => if 'a' <= s[i] <= 'z' then (s[i] as int - 32) as char else s[i])
  }

  /** One decimal digit. */
  function Digit(d: nat): char
    requires d < 10
  {
    "0123456789"[d]
  }

  /** `str(n)` for a natural number. */
  function NatToString(n: nat): (r: string)
    ensures |r| >= 1
    ensures forall i :: 0 <= i < |r| ==> '0' <= r[i] <= '9'
  {
    if n < 10 then [Digit(n)] else NatToString(n / 10) + [Digit(n % 10)]
  }

  /** `s.removeprefix(p)` */
  function RemovePrefix(s: string, p: string): (r: string)
    ensures p <= s ==> s == p + r
    ensures !(p <= s) ==> r == s
  {
    if p <= s then s[|p|..] else s
  }

  /** `s.endswith(p)` */
  predicate EndsWith(s: string, p: string) {
    |p| <= |s| && s[|s| - |p|..] == p
  }

  /** `s.removesuffix(p)` */
  function RemoveSuffix(s: string, p: string): (r: string)
    ensures EndsWith(s, p) ==> s == r + p
    ensures !EndsWith(s, p) ==> r == s
  {
    if EndsWith(s, p) then s[..|s| - |p|] else s
  }

  /** A string with no surrounding whitespace is left alone by `strip()`. */
  lemma StripNoop(s: string)
    requires s != [] ==> !IsSpace(s[0]) && !IsSpace(s[|s| - 1])
    ensures Strip(s) == s
  {
    assert LStrip(s) == s;
  }

  /** `strip()` is idempotent. */
  lemma StripIdempotent(s: string)
    ensures Strip(Strip(s)) == Strip(s)
  {
    var l := LStrip(s);
    var t := RStrip(l);
    LStripFacts(s);
    RStripFacts(l);
    if t != [] {
      assert t[0] == l[0];
    }
    StripNoop(t);
  }

  /** Every character of `strip(s)` occurs in `s`. */
  lemma StripIsSlice(s: string)
    ensures forall c :: c in Strip(s) ==> c in s
  {
    var l := LStrip(s);
    var r := RStrip(l);
    LStripFacts(s);
    RStripFacts(l);
    forall c | c in r ensures c in s {
      var i :| 0 <= i < |r| && r[i] == c;
      assert l[i] == c;
      assert s[|s| - |l| + i] == c;
    }
  }

  /** The last occurrence of `c` in `a + [c] + b` is the one between `a` and `b` when `b` has none. */
  lemma RFindSplit(a: string, c: char, b: string)
    requires c !in b
    ensures RFind(a + [c] + b, c) == Some(|a|)
  {
    var s := a + [c] + b;
    assert s[|a|] == c;
    var k := RFind(s, c).value;
    if k < |a| {
      assert false;
    }
    if k > |a| {
      assert false;
    }
    }

  lemma PrefixAppend(p: string, u: string)
    ensures p <= p + u && (p + u)[|p|..] == u
  {
  }

  lemma SuffixAppend(u: string, p: string)
    ensures EndsWith(u + p, p) && (u + p)[..|u|] == u
  {
    assert (u + p)[|u + p| - |p|..] == p;
  }

  /** The text after the last `c` of `a + [c] + b`, when `b` has no `c`, is `b`. */
  lemma {:induction false} LastSegmentSplit(a: string, c: char, b: string)
    requires c !in b
    ensures LastSegment(a + [c] + b, c) == b
  {
    var s := a + [c] + b;
    if b == [] {
      assert s[|s| - 1] == c;
    } else {
      var b' := b[..|b| - 1];
      assert s[..|s| - 1] == a + [c] + b';
      LastSegmentSplit(a, c, b');
      assert b' + [b[|b| - 1]] == b;
    }
  }

  /** A string without `c` is its own last segment. */
  lemma {:induction false} LastSegmentNone(s: string, c: char)
    requires c !in s
    ensures LastSegment(s, c) == s
  {
    if s != [] {
      LastSegmentNone(s[..|s| - 1], c);
      assert s[..|s| - 1] + [s[|s| - 1]] == s;
    }
  }
}
