/** The read-only check for generated Cypher (backend/app/cypher_validator.py): quoted literals
  * are blanked, then the text is searched, ignoring case, for a write keyword that starts a word.
  * The regular expression is written out as a scanner over its own shape. */
module CypherValidator {
  import opened Wrappers
  import opened Strs

  // ---------------------------------------------------------------------------------------
  // Blanking literals
  // ---------------------------------------------------------------------------------------

  /** `re.sub(q + "[^" + q + "]*" + q, q + q, s)`: every literal delimited by `q` becomes an empty
    * one, scanning from the left; a `q` with no partner after it is left as it is. */
  function BlankQuoted(s: string, q: char): string
    decreases |s|
  {
    if s == [] then []
    else if s[0] == q then
      match Find(s[1..], q)
      case None => s
      case Some(k) => [q, q] + BlankQuoted(s[k + 2..], q)
    else [s[0]] + BlankQuoted(s[1..], q)
  }

  /** Single-quoted literals first, then double-quoted ones. */
  function Blanked(cypher: string): string {
    BlankQuoted(BlankQuoted(cypher, '\''), '"')
  }

  /** Text without the quote character passes through unchanged. */
  lemma {:induction false} BlankQuotedPrefix(x: string, y: string, q: char)
    requires q !in x
    ensures BlankQuoted(x + y, q) == x + BlankQuoted(y, q)
    decreases |x|
  {
    if x == [] {
      assert x + y == y;
    } else {
      assert (x + y)[0] == x[0] && (x + y)[1..] == x[1..] + y;
      BlankQuotedPrefix(x[1..], y, q);
      assert x == [x[0]] + x[1..];
    }
  }

  /** A complete literal is replaced by an empty one, whatever it held. */
  lemma BlankQuotedLiteral(lit: string, rest: string, q: char)
    requires q !in lit
    ensures BlankQuoted([q] + lit + [q] + rest, q) == [q, q] + BlankQuoted(rest, q)
  {
    var s := [q] + lit + [q] + rest;
    assert s[1..] == lit + [q] + rest;
    assert s[1..][|lit|] == q && s[1..][..|lit|] == lit;
    assert Find(s[1..], q) == Some(|lit|);
    assert s[|lit| + 2..] == rest;
  }

  // ---------------------------------------------------------------------------------------
  // The keyword search
  // ---------------------------------------------------------------------------------------

  /** `\w` on ASCII text. */
  predicate IsWordChar(c: char) {
    'a' <= c <= 'z' || 'A' <= c <= 'Z' || '0' <= c <= '9' || c == '_'
  }

  /** `\b` before a keyword: the keyword starts the text or follows a non-word character. */
  predicate Boundary(s: string, i: nat)
    requires i <= |s|
  {
    i == 0 || !IsWordChar(s[i - 1])
  }

  /** The keyword `w` (in capitals) is at `i`, in any case. */
  predicate KeywordAt(s: string, i: nat, w: string) {
    i + |w| <= |s| && Upper(s[i..i + |w|]) == w
  }

  /** The number of whitespace characters from `j` on (`\s*`). */
  function SpacesFrom(s: string, j: nat): (n: nat)
    ensures j + n <= |s| || (j > |s| && n == 0)
    ensures forall k :: j <= k < j + n ==> IsSpace(s[k])
    ensures j + n < |s| ==> !IsSpace(s[j + n])
    decreases |s| - j
  {
    if j < |s| && IsSpace(s[j]) then 1 + SpacesFrom(s, j + 1) else 0
  }

  /** A keyword alternative: the length of `w` when it is at `i`. */
  function Literal(s: string, i: nat, w: string): (r: Option<nat>)
    ensures r.Some? ==> i + r.value <= |s|
  {
    if KeywordAt(s, i, w) then Some(|w|) else None
  }

  /** Two keywords with at least one space between (`w1\s+w2`) at `i`: the length of the text. */
  function KeywordPair(s: string, i: nat, w1: string, w2: string): (r: Option<nat>)
    ensures r.Some? ==> i + r.value <= |s|
  {
    var n := SpacesFrom(s, i + |w1|);
    if KeywordAt(s, i, w1) && n >= 1 && KeywordAt(s, i + |w1| + n, w2) then Some(|w1| + n + |w2|) else None
  }

  /** `DETACH\s+DELETE` at `i`. */
  function DetachDelete(s: string, i: nat): (r: Option<nat>)
    ensures r.Some? ==> i + r.value <= |s|
  {
    KeywordPair(s, i, "DETACH", "DELETE")
  }

  /** `CALL\s*\{` at `i`. */
  function CallBrace(s: string, i: nat): (r: Option<nat>)
    ensures r.Some? ==> i + r.value <= |s|
  {
    var n := SpacesFrom(s, i + 4);
    if KeywordAt(s, i, "CALL") && i + 4 + n < |s| && s[i + 4 + n] == '{' then Some(5 + n) else None
  }

  /** The length of the text `CREATE|MERGE|DELETE|DETACH\s+DELETE|SET|REMOVE|DROP|CALL\s*\{`
    * matches at `i`: the first alternative, in the order the pattern lists them, that matches. */
  function MatchAt(s: string, i: nat): (r: Option<nat>)
    ensures r.Some? ==> i + r.value <= |s|
  {
    if Literal(s, i, "CREATE").Some? then Literal(s, i, "CREATE")
    else if Literal(s, i, "MERGE").Some? then Literal(s, i, "MERGE")
    else if Literal(s, i, "DELETE").Some? then Literal(s, i, "DELETE")
    else if DetachDelete(s, i).Some? then DetachDelete(s, i)
    else if Literal(s, i, "SET").Some? then Literal(s, i, "SET")
    else if Literal(s, i, "REMOVE").Some? then Literal(s, i, "REMOVE")
    else if Literal(s, i, "DROP").Some? then Literal(s, i, "DROP")
    else CallBrace(s, i)
  }

  /** A write keyword starts at `i`. */
  predicate Matches(s: string, i: nat)
    requires i <= |s|
  {
    Boundary(s, i) && MatchAt(s, i).Some?
  }

  /** `pattern.search(s)` from `i` on: the leftmost position where a write keyword starts, with
    * the length of its text. */
  function FirstMatch(s: string, i: nat): (r: Option<(nat, nat)>)
    requires i <= |s|
    ensures r.None? <==> forall j :: i <= j <= |s| ==> !Matches(s, j)
    ensures r.Some? ==> i <= r.value.0 <= |s| && Matches(s, r.value.0) && MatchAt(s, r.value.0) == Some(r.value.1)
                        && forall j :: i <= j < r.value.0 ==> !Matches(s, j)
    decreases |s| - i
  {
    if Matches(s, i) then Some((i, MatchAt(s, i).value))
    else if i == |s| then None
    else FirstMatch(s, i + 1)
  }

  const WriteMessage := "Query contains write operation: "

  /** `validate_read_only`: safe with an empty message when no write keyword is found in the
    * blanked text; otherwise unsafe, naming the text of the first keyword found. */
  function ValidateReadOnly(cypher: string): (r: (bool, string))
    ensures r.0 <==> forall j :: 0 <= j <= |Blanked(cypher)| ==> !Matches(Blanked(cypher), j)
    ensures r.0 ==> r.1 == ""
    ensures !r.0 ==> WriteMessage <= r.1
  {
    Verdict(Blanked(cypher))
  }

  /** The verdict on an already blanked text. */
  function Verdict(t: string): (r: (bool, string))
    ensures r.0 <==> forall j :: 0 <= j <= |t| ==> !Matches(t, j)
    ensures r.0 ==> r.1 == ""
    ensures !r.0 ==> WriteMessage <= r.1
  {
    match FirstMatch(t, 0)
    case None => (true, "")
    case Some((p, n)) => (false, WriteMessage + t[p..p + n])
  }

  /** An unsafe query's message names the text of the leftmost write keyword, as it is written. */
  lemma UnsafeMessage(cypher: string)
    requires !ValidateReadOnly(cypher).0
    ensures var t := Blanked(cypher);
            exists p: nat, n: nat :: p + n <= |t| && Matches(t, p) && MatchAt(t, p) == Some(n)
                                     && (forall j :: 0 <= j < p ==> !Matches(t, j))
                                     && ValidateReadOnly(cypher).1 == WriteMessage + t[p..p + n]
  {
    var t := Blanked(cypher);
    var m := FirstMatch(t, 0);
    assert m.Some?;
    var p, n := m.value.0, m.value.1;
    assert p + n <= |t| && ValidateReadOnly(cypher).1 == WriteMessage + t[p..p + n];
  }

  // ---------------------------------------------------------------------------------------
  // Properties
  // ---------------------------------------------------------------------------------------

  /** Whatever a single-quoted literal holds, the verdict and message are the same: the text
    * before it (free of quotes) is kept and the literal is blanked. */
  lemma SingleQuotedIgnored(a: string, lit1: string, lit2: string, b: string)
    requires '\'' !in a && '"' !in a && '\'' !in lit1 && '\'' !in lit2
    ensures ValidateReadOnly(a + ['\''] + lit1 + ['\''] + b) == ValidateReadOnly(a + ['\''] + lit2 + ['\''] + b)
  {
    QuotedBlanked(a, lit1, b, '\'');
    QuotedBlanked(a, lit2, b, '\'');
    SameBlankedSameVerdict(a + ['\''] + lit1 + ['\''] + b, a + ['\''] + lit2 + ['\''] + b);
  }

  /** The verdict and message depend on the blanked text alone. */
  lemma SameBlankedSameVerdict(x: string, y: string)
    requires BlankQuoted(x, '\'') == BlankQuoted(y, '\'')
    ensures ValidateReadOnly(x) == ValidateReadOnly(y)
  {
    assert Blanked(x) == Blanked(y);
  }

  /** A literal quoted with `q` after `q`-free text is blanked in place by the pass for `q`. */
  lemma QuotedBlanked(a: string, lit: string, b: string, q: char)
    requires q !in a && q !in lit
    ensures BlankQuoted(a + [q] + lit + [q] + b, q) == a + [q, q] + BlankQuoted(b, q)
  {
    assert a + [q] + lit + [q] + b == a + ([q] + lit + [q] + b);
    BlankQuotedPrefix(a, [q] + lit + [q] + b, q);
    BlankQuotedLiteral(lit, b, q);
  }

  /** The same for a double-quoted literal holding no single quote. */
  lemma DoubleQuotedIgnored(a: string, lit1: string, lit2: string, b: string)
    requires '\'' !in a && '"' !in a
    requires '"' !in lit1 && '\'' !in lit1 && '"' !in lit2 && '\'' !in lit2
    ensures ValidateReadOnly(a + ['"'] + lit1 + ['"'] + b) == ValidateReadOnly(a + ['"'] + lit2 + ['"'] + b)
  {
    DoubleBlanked(a, lit1, b);
    DoubleBlanked(a, lit2, b);
  }

  lemma DoubleBlanked(a: string, lit: string, b: string)
    requires '\'' !in a && '"' !in a && '"' !in lit && '\'' !in lit
    ensures Blanked(a + ['"'] + lit + ['"'] + b) == a + ['"', '"'] + BlankQuoted(BlankQuoted(b, '\''), '"')
  {
    var head := a + ['"'] + lit + ['"'];
    var b1 := BlankQuoted(b, '\'');
    assert a + ['"'] + lit + ['"'] + b == head + b;
    assert '\'' !in head;
    BlankQuotedPrefix(head, b, '\'');
    QuotedBlanked(a, lit, b1, '"');
  }

  /** The single-word keywords. */
  const Keywords := ["CREATE", "MERGE", "DELETE", "SET", "REMOVE", "DROP"]

  /** A keyword, in any case, at the start of the text or after a non-word character, and with
    * no quote before it, makes the query unsafe, whatever follows it: `n.created` is refused. */
  lemma KeywordRejected(a: string, w: string, b: string)
    requires '\'' !in a && '"' !in a && '\'' !in w && '"' !in w
    requires Upper(w) in Keywords
    requires a == [] || !IsWordChar(a[|a| - 1])
    ensures !ValidateReadOnly(a + w + b).0
  {
    var t := Blanked(a + w + b);
    PlainPrefix(a + w, b);
    assert t == a + w + Blanked(b);
    assert t[|a|..|a| + |w|] == w;
    KeywordMatches(t, |a|, Upper(w));
    assert Boundary(t, |a|) by {
      if a != [] {
        assert t[|a| - 1] == a[|a| - 1];
      }
    }
    assert Matches(t, |a|);
  }

  /** Any of the single-word keywords at `i` is a match of the pattern there. */
  lemma KeywordMatches(s: string, i: nat, w: string)
    requires w in Keywords && KeywordAt(s, i, w)
    ensures MatchAt(s, i).Some?
  {
    assert Literal(s, i, w) == Some(|w|);
    assert w == "CREATE" || w == "MERGE" || w == "DELETE" || w == "SET" || w == "REMOVE" || w == "DROP";
  }

  /** Text free of quotes before the first literal is left as it is. */
  lemma PlainPrefix(x: string, b: string)
    requires '\'' !in x && '"' !in x
    ensures Blanked(x + b) == x + Blanked(b)
  {
    BlankQuotedPrefix(x, b, '\'');
    BlankQuotedPrefix(x, BlankQuoted(b, '\''), '"');
  }

  /** A property whose name begins with `created` is refused. */
  lemma CreatedPropertyRejected()
    ensures !ValidateReadOnly("RETURN n.created").0
  {
    assert "RETURN n.created" == "RETURN n." + "create" + "d";
    assert Upper("create") == "CREATE" by {
      forall i | 0 <= i < 6
        ensures Upper("create")[i] == "CREATE"[i]
      {
      }
    }
    KeywordRejected("RETURN n.", "create", "d");
  }

  /** A keyword found at `i` begins with the capital of `s[i]`. */
  lemma KeywordHead(s: string, i: nat, w: string)
    requires i < |s| && w != []
    ensures KeywordAt(s, i, w) ==> w[0] == (if 'a' <= s[i] <= 'z' then (s[i] as int - 32) as char else s[i])
  {
    if KeywordAt(s, i, w) {
      assert Upper(s[i..i + |w|])[0] == w[0];
    }
  }

  /** No write keyword begins with `o`. */
  lemma NoKeywordAtO(s: string)
    requires s != [] && s[0] == 'o'
    ensures MatchAt(s, 0).None?
  {
    KeywordHead(s, 0, "CREATE");
    KeywordHead(s, 0, "MERGE");
    KeywordHead(s, 0, "DELETE");
    KeywordHead(s, 0, "DETACH");
    KeywordHead(s, 0, "SET");
    KeywordHead(s, 0, "REMOVE");
    KeywordHead(s, 0, "DROP");
    KeywordHead(s, 0, "CALL");
  }

  /** `offset` holds `set` but not at the start of a word, so it passes. */
  lemma OffsetAccepted()
    ensures ValidateReadOnly("offset") == (true, "")
  {
    var s := "offset";
    assert Blanked(s) == s by {
      BlankQuotedPrefix(s, [], '\'');
      BlankQuotedPrefix(s, [], '"');
      assert s + [] == s;
    }
    OffsetNoMatch();
    assert Verdict(s).0;
  }

  lemma OffsetNoMatch()
    ensures forall j :: 0 <= j <= |"offset"| ==> !Matches("offset", j)
  {
    var s := "offset";
    NoKeywordAtO(s);
    OffsetWordChars();
    forall j | 0 < j <= |s|
      ensures !Matches(s, j)
    {
      assert IsWordChar(s[j - 1]);
    }
  }

  lemma OffsetWordChars()
    ensures forall k :: 0 <= k < |"offset"| ==> IsWordChar("offset"[k])
  {
    var s := "offset";
    forall k | 0 <= k < |s|
      ensures IsWordChar(s[k])
    {
      assert 'a' <= s[k] <= 'z';
    }
  }

  // ---------------------------------------------------------------------------------------
  // Case
  // ---------------------------------------------------------------------------------------

  function UpChar(c: char): char {
    if 'a' <= c <= 'z' then (c as int - 32) as char else c
  }

  lemma UpperAt(s: string)
    ensures forall i :: 0 <= i < |s| ==> Upper(s)[i] == UpChar(s[i])
  {
  }

  lemma UpperSlice(s: string, i: nat, j: nat)
    requires i <= j <= |s|
    ensures Upper(s)[i..j] == Upper(s[i..j])
  {
    UpperAt(s);
    UpperAt(s[i..j]);
  }

  lemma UpperSuffix(s: string, i: nat)
    requires i <= |s|
    ensures Upper(s)[i..] == Upper(s[i..])
  {
    UpperSlice(s, i, |s|);
    assert Upper(s)[i..] == Upper(s)[i..|s|] && s[i..] == s[i..|s|];
  }

  lemma UpperTwice(s: string)
    ensures Upper(Upper(s)) == Upper(s)
  {
    UpperAt(s);
    UpperAt(Upper(s));
  }

  /** Capitals leave quotes where they are. */
  lemma {:induction false} FindUpper(s: string, q: char)
    requires q == '\'' || q == '"'
    ensures Find(Upper(s), q) == Find(s, q)
    decreases |s|
  {
    if s != [] {
      var u := Upper(s);
      UpperIndex(s, 0);
      UpperSuffix(s, 1);
      assert (u[0] == q) == (s[0] == q);
      FindUpper(s[1..], q);
    }
  }

  lemma UpperIndex(s: string, k: nat)
    requires k < |s|
    ensures Upper(s)[k] == UpChar(s[k])
  {
  }

  lemma UpperCons(c: char, s: string)
    ensures Upper([c] + s) == [UpChar(c)] + Upper(s)
  {
    UpperAt([c] + s);
    UpperAt(s);
  }

  /** Blanking literals and capitalising commute. */
  lemma {:induction false} BlankUpper(s: string, q: char)
    requires q == '\'' || q == '"'
    ensures BlankQuoted(Upper(s), q) == Upper(BlankQuoted(s, q))
    decreases |s|
  {
    if s != [] {
      assert s == [s[0]] + s[1..];
      UpperCons(s[0], s[1..]);
      var u := Upper(s);
      assert u[0] == UpChar(s[0]) && u[1..] == Upper(s[1..]);
      if s[0] == q {
        FindUpper(s[1..], q);
        match Find(s[1..], q)
        case None =>
        case Some(k) =>
          BlankUpperLiteral(s, q, k);
      } else {
        BlankUpper(s[1..], q);
        UpperCons(s[0], BlankQuoted(s[1..], q));
      }
    }
  }

  /** The step of `BlankUpper` over one complete literal. */
  lemma {:induction false} BlankUpperLiteral(s: string, q: char, k: nat)
    requires q == '\'' || q == '"'
    requires s != [] && s[0] == q && Find(s[1..], q) == Some(k)
    ensures BlankQuoted(Upper(s), q) == Upper(BlankQuoted(s, q))
    decreases |s|, 0
  {
    var u := Upper(s);
    BlankLiteralStep(s, q, k);
    UpperQuoteLiteral(s, q, k);
    BlankLiteralStep(u, q, k);
    var tail := s[k + 2..];
    UpperSuffix(s, k + 2);
    calc {
      BlankQuoted(u, q);
      [q, q] + BlankQuoted(Upper(tail), q);
      { BlankUpper(tail, q); }
      [q, q] + Upper(BlankQuoted(tail, q));
      { UpperQuotePair(q, BlankQuoted(tail, q)); }
      Upper([q, q] + BlankQuoted(tail, q));
      Upper(BlankQuoted(s, q));
    }
  }

  lemma UpperQuotePair(q: char, rest: string)
    requires q == '\'' || q == '"'
    ensures Upper([q, q] + rest) == [q, q] + Upper(rest)
  {
    assert UpChar(q) == q;
    UpperCons(q, rest);
    UpperCons(q, [q] + rest);
    assert [q, q] + rest == [q] + ([q] + rest);
  }

  /** Blanking a text that opens with a complete literal. */
  lemma {:induction false} BlankLiteralStep(s: string, q: char, k: nat)
    requires s != [] && s[0] == q && Find(s[1..], q) == Some(k)
    ensures k + 2 <= |s| && BlankQuoted(s, q) == [q, q] + BlankQuoted(s[k + 2..], q)
  {
    assert k < |s[1..]|;
  }

  /** The capitalised text has its literal at the same place. */
  lemma UpperQuoteLiteral(s: string, q: char, k: nat)
    requires q == '\'' || q == '"'
    requires s != [] && s[0] == q && Find(s[1..], q) == Some(k)
    ensures var u := Upper(s); u != [] && u[0] == q && Find(u[1..], q) == Some(k)
  {
    assert s == [s[0]] + s[1..];
    UpperCons(s[0], s[1..]);
    FindUpper(s[1..], q);
  }

  lemma {:induction false} SpacesUpper(s: string, j: nat)
    ensures SpacesFrom(Upper(s), j) == SpacesFrom(s, j)
    decreases |s| - j
  {
    UpperAt(s);
    if j < |s| && IsSpace(s[j]) {
      SpacesUpper(s, j + 1);
    }
  }

  lemma KeywordUpper(s: string, i: nat, w: string)
    ensures KeywordAt(Upper(s), i, w) == KeywordAt(s, i, w)
  {
    if i + |w| <= |s| {
      UpperSlice(s, i, i + |w|);
      UpperTwice(s[i..i + |w|]);
    }
  }

  lemma LiteralUpper(t: string, i: nat, w: string)
    ensures Literal(Upper(t), i, w) == Literal(t, i, w)
  {
    KeywordUpper(t, i, w);
  }

  lemma DetachDeleteUpper(t: string, i: nat)
    ensures DetachDelete(Upper(t), i) == DetachDelete(t, i)
  {
    PairUpper(t, i, "DETACH", "DELETE");
  }

  /** Whether two keywords stand at a place does not depend on case. */
  lemma PairUpper(t: string, i: nat, w1: string, w2: string)
    ensures KeywordPair(Upper(t), i, w1, w2) == KeywordPair(t, i, w1, w2)
  {
    var n := SpacesFrom(t, i + |w1|);
    SpacesUpper(t, i + |w1|);
    KeywordUpper(t, i, w1);
    KeywordUpper(t, i + |w1| + n, w2);
    PairSame(Upper(t), t, i, w1, w2);
  }

  /** Texts that agree on the keywords and on the spaces between them agree on the pair. */
  lemma PairSame(s: string, t: string, i: nat, w1: string, w2: string)
    requires |s| == |t| && SpacesFrom(s, i + |w1|) == SpacesFrom(t, i + |w1|)
    requires KeywordAt(s, i, w1) == KeywordAt(t, i, w1)
    requires KeywordAt(s, i + |w1| + SpacesFrom(t, i + |w1|), w2) == KeywordAt(t, i + |w1| + SpacesFrom(t, i + |w1|), w2)
    ensures KeywordPair(s, i, w1, w2) == KeywordPair(t, i, w1, w2)
  {
  }

  lemma CallBraceUpper(t: string, i: nat)
    ensures CallBrace(Upper(t), i) == CallBrace(t, i)
  {
    KeywordUpper(t, i, "CALL");
    SpacesUpper(t, i + 4);
    var k := i + 4 + SpacesFrom(t, i + 4);
    if k < |t| {
      UpperIndex(t, k);
    }
  }

  /** Which alternative matches at a place, and how long its text is, does not depend on case. */
  lemma MatchAtUpper(t: string, i: nat)
    ensures MatchAt(Upper(t), i) == MatchAt(t, i)
  {
    LiteralUpper(t, i, "CREATE");
    LiteralUpper(t, i, "MERGE");
    LiteralUpper(t, i, "DELETE");
    DetachDeleteUpper(t, i);
    LiteralUpper(t, i, "SET");
    LiteralUpper(t, i, "REMOVE");
    LiteralUpper(t, i, "DROP");
    CallBraceUpper(t, i);
  }

  /** Whether a write keyword starts at a place does not depend on case. */
  lemma MatchesUpper(t: string, i: nat)
    requires i <= |t|
    ensures Matches(Upper(t), i) == Matches(t, i)
  {
    MatchAtUpper(t, i);
    if i > 0 {
      UpperIndex(t, i - 1);
    }
  }

  /** The check ignores case: a query and its capitalised form get the same verdict. */
  lemma CaseBlind(cypher: string)
    ensures ValidateReadOnly(Upper(cypher)).0 == ValidateReadOnly(cypher).0
  {
    var t := Blanked(cypher);
    BlankUpper(cypher, '\'');
    BlankUpper(BlankQuoted(cypher, '\''), '"');
    assert Blanked(Upper(cypher)) == Upper(t);
    forall j | 0 <= j <= |t|
      ensures Matches(Upper(t), j) == Matches(t, j)
    {
      MatchesUpper(t, j);
    }
  }
}
