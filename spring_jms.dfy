/** The Spring JMS enricher (backend/app/analyzers/enrichers/spring_jms.py): listener methods
  * found by their `@JmsListener` annotation, producer classes found by their JmsTemplate import
  * and their send calls in the source, and the destinations both point at, each merged once per
  * run. Graph reads arrive as rows; each graph write either happens (and is recorded in the
  * state) or raises, which is modelled by sets of the keys whose write fails. */
module SpringJms {
  import opened Wrappers
  import opened Strs
  import opened Metamodel
  import opened EnricherBase

  const JmsListenerFqn := "org.springframework.jms.annotation.JmsListener"
  const JmsTemplateFqn := "org.springframework.jms.core.JmsTemplate"
  const JmsTemplatePkg := "org.springframework.jms.core"

  /** The JmsTemplate methods that send, in the order the source is scanned for them. */
  const SendMethods: seq<string> := ["send", "convertAndSend", "sendAndReceive"]

  // ---------------------------------------------------------------------------------------
  // Listener destinations
  // ---------------------------------------------------------------------------------------

  /** The destination of a listener annotation: the `destination` argument as text (first element
    * of a list, "" when absent), with surrounding double quotes and then single quotes removed. */
  function ListenerDestination(args: map<string, ArgValue>): string {
    StripChar(StripChar(ArgText(args, "destination"), '"'), '\'')
  }

  /** What `strip(c)` leaves neither starts nor ends with `c`, and it is a slice of its input. */
  lemma {:induction false} StripCharEnds(s: string, c: char)
    ensures StripChar(s, c) != [] ==> StripChar(s, c)[0] != c && StripChar(s, c)[|StripChar(s, c)| - 1] != c
    ensures c !in s ==> StripChar(s, c) == s
  {
    var l := LStripChar(s, c);
    LStripCharFacts(s, c);
    RStripCharFacts(l, c);
    if c !in s {
      if s != [] {
        assert s[0] != c;
      }
      assert l == s;
      if l != [] {
        assert l[|l| - 1] != c;
      }
    }
  }

  /** A listener destination never starts or ends with a single quote, and text without quotes
    * is kept as it is. */
  lemma DestinationUnquoted(args: map<string, ArgValue>)
    ensures var d := ListenerDestination(args);
            d != [] ==> d[0] != '\'' && d[|d| - 1] != '\''
    ensures var t := ArgText(args, "destination");
            '"' !in t && '\'' !in t ==> ListenerDestination(args) == t
  {
    var t := ArgText(args, "destination");
    StripCharEnds(t, '"');
    StripCharEnds(StripChar(t, '"'), '\'');
  }

  // ---------------------------------------------------------------------------------------
  // The send-call scanner
  // ---------------------------------------------------------------------------------------

  /** The end of the run of whitespace starting at `i` (the regex `\s*`). */
  function SkipSpaces(s: string, i: nat): (r: nat)
    requires i <= |s|
    ensures i <= r <= |s|
    ensures forall k :: i <= k < r ==> IsSpace(s[k])
    ensures r < |s| ==> !IsSpace(s[r])
    decreases |s| - i
  {
    if i < |s| && IsSpace(s[i]) then SkipSpaces(s, i + 1) else i
  }

  /** The pattern `\.m\s*\(` matched at `i`: the index just after the parenthesis. */
  function CallOpenAt(s: string, i: nat, m: string): (r: Option<nat>)
    requires i <= |s|
    ensures r.Some? ==> i + 1 + |m| < r.value <= |s| && s[i] == '.' && s[i + 1..i + 1 + |m|] == m && s[r.value - 1] == '('
  {
    if i + 1 + |m| <= |s| && s[i] == '.' && s[i + 1..i + 1 + |m|] == m then
      var j := SkipSpaces(s, i + 1 + |m|);
      if j < |s| && s[j] == '(' then Some(j + 1) else None
    else None
  }

  /** The pattern `\.m\s*\(\s*"([^"]*)"` matched at `i`: the quoted text and the index just after
    * the closing quote. */
  function LiteralAt(s: string, i: nat, m: string): (r: Option<(string, nat)>)
    requires i <= |s|
    ensures r.Some? ==> i < r.value.1 <= |s| && '"' !in r.value.0 && CallOpenAt(s, i, m).Some?
  {
    match CallOpenAt(s, i, m)
    case None => None
    case Some(k) =>
      var q := SkipSpaces(s, k);
      if q < |s| && s[q] == '"' then
        match Find(s[q + 1..], '"')
        case None => None
        case Some(c) => Some((s[q + 1..q + 1 + c], q + 2 + c))
      else None
  }

  /** `re.findall` of that pattern from `i`: the quoted texts of the non-overlapping matches,
    * left to right (after a match the scan resumes at its end). */
  function FindAllLiterals(s: string, m: string, i: nat): seq<string>
    requires i <= |s|
    decreases |s| - i
  {
    if i == |s| then []
    else match LiteralAt(s, i, m)
      case Some((lit, e)) => [lit] + FindAllLiterals(s, m, e)
      case None => FindAllLiterals(s, m, i + 1)
  }

  /** `re.search` of `\.m\s*\(`: the source calls `m` somewhere. */
  predicate HasCall(s: string, m: string) {
    exists i :: 0 <= i <= |s| && CallOpenAt(s, i, m).Some?
  }

  /** Every text `findall` returns is quoted text, so has no double quote, and when it returns
    * any, the source calls `m` at or after `i`. */
  lemma {:induction false} FindAllSound(s: string, m: string, i: nat)
    requires i <= |s|
    ensures forall lit :: lit in FindAllLiterals(s, m, i) ==> '"' !in lit
    ensures FindAllLiterals(s, m, i) != [] ==> exists j :: i <= j <= |s| && CallOpenAt(s, j, m).Some?
    decreases |s| - i
  {
    if i < |s| {
      match LiteralAt(s, i, m)
      case Some((lit, e)) =>
        FindAllSound(s, m, e);
        assert CallOpenAt(s, i, m).Some?;
      case None =>
        FindAllSound(s, m, i + 1);
        if FindAllLiterals(s, m, i) != [] {
          var j :| i + 1 <= j <= |s| && CallOpenAt(s, j, m).Some?;
        }
    }
  }

  /** The literal destinations of the calls of the first `k` send methods. */
  function LiteralsUpTo(src: string, k: nat): set<string>
    requires k <= |SendMethods|
  {
    if k == 0 then {}
    else
      var lits := FindAllLiterals(src, SendMethods[k - 1], 0);
      LiteralsUpTo(src, k - 1) + (set lit | lit in lits)
  }

  /** The source calls one of the first `k` send methods. */
  predicate CallsUpTo(src: string, k: nat)
    requires k <= |SendMethods|
  {
    k > 0 && (CallsUpTo(src, k - 1) || HasCall(src, SendMethods[k - 1]))
  }

  /** The literal destinations of all send calls in a source. */
  function SendLiterals(src: string): set<string> {
    LiteralsUpTo(src, |SendMethods|)
  }

  /** The source calls one of the send methods. */
  predicate HasSendCall(src: string) {
    exists k :: 0 <= k < |SendMethods| && HasCall(src, SendMethods[k])
  }

  /** The literals of the first `k` methods are exactly those some one of them yields, and none
    * has a double quote. */
  lemma {:induction false} LiteralsUpToMembers(src: string, k: nat)
    requires k <= |SendMethods|
    ensures forall lit :: lit in LiteralsUpTo(src, k) <==>
              exists j :: 0 <= j < k && lit in FindAllLiterals(src, SendMethods[j], 0)
    ensures forall lit :: lit in LiteralsUpTo(src, k) ==> '"' !in lit
  {
    if k > 0 {
      LiteralsUpToMembers(src, k - 1);
      FindAllSound(src, SendMethods[k - 1], 0);
    }
  }

  /** A method with a literal destination is called. */
  lemma LiteralMeansCall(src: string, m: string)
    requires FindAllLiterals(src, m, 0) != []
    ensures HasCall(src, m)
  {
    FindAllSound(src, m, 0);
    assert FindAllLiterals(src, m, 0)[0] in FindAllLiterals(src, m, 0);
  }

  /** Calling one of the first `k` methods is calling one of them by index, and having literals
    * from them means calling one. */
  lemma {:induction false} CallsUpToFacts(src: string, k: nat)
    requires k <= |SendMethods|
    ensures CallsUpTo(src, k) <==> exists j :: 0 <= j < k && HasCall(src, SendMethods[j])
    ensures LiteralsUpTo(src, k) != {} ==> CallsUpTo(src, k)
  {
    if k > 0 {
      CallsUpToFacts(src, k - 1);
      if FindAllLiterals(src, SendMethods[k - 1], 0) != [] {
        LiteralMeansCall(src, SendMethods[k - 1]);
      }
    }
  }

  /** A literal destination comes from a send call, so a source with literal destinations counts
    * as calling send; and no literal contains a double quote. */
  lemma LiteralsNeedSendCall(src: string)
    ensures SendLiterals(src) != {} ==> HasSendCall(src)
    ensures forall d :: d in SendLiterals(src) ==> '"' !in d
  {
    LiteralsUpToMembers(src, |SendMethods|);
    CallsUpToFacts(src, |SendMethods|);
  }

  /** A send call with an empty literal yields the empty destination, which producers merge
    * as they find it (only listeners skip an empty destination). */
  lemma EmptyLiteralExample()
    ensures "" in SendLiterals("t.send(\"\")")
  {
    var src := "t.send(\"\")";
    assert src[2..6] == "send";
    assert CallOpenAt(src, 1, "send") == Some(7);
    assert src[7] == '"' && !IsSpace(src[7]);
    assert SkipSpaces(src, 7) == 7;
    assert src[8..] == "\")";
    assert Find(src[8..], '"') == Some(0);
    assert src[8..8] == "";
    assert LiteralAt(src, 1, "send") == Some(("", 9));
    assert LiteralAt(src, 9, "send") == None;
    assert FindAllLiterals(src, "send", 9) == [];
    assert FindAllLiterals(src, "send", 0) == FindAllLiterals(src, "send", 1);
    assert "" in FindAllLiterals(src, "send", 0);
  }

  /** The scan of `_process_producers`: for each send method, its literal first arguments are
    * added to the destinations, and a call with or without a literal marks the class as sending. */
  method ScanSource(src: string) returns (destinations: set<string>, hasSendCalls: bool)
    ensures destinations == SendLiterals(src)
    ensures hasSendCalls == HasSendCall(src)
  {
    destinations := {};
    hasSendCalls := false;
    for k := 0 to |SendMethods|
      invariant destinations == LiteralsUpTo(src, k)
      invariant hasSendCalls == CallsUpTo(src, k)
    {
      var matches := FindAllLiterals(src, SendMethods[k], 0);
      if matches != [] {
        LiteralMeansCall(src, SendMethods[k]);
        hasSendCalls := true;
        destinations := destinations + set lit | lit in matches;
      } else {
        hasSendCalls := hasSendCalls || HasCall(src, SendMethods[k]);
      }
    }
    CallsUpToFacts(src, |SendMethods|);
  }

  // ---------------------------------------------------------------------------------------
  // Rows, nodes and the run state
  // ---------------------------------------------------------------------------------------

  /** A method row of the listener query. */
  datatype ListenerRow = ListenerRow(methodFullName: string, methodName: string, annotations: StoredJson<Annotation>)

  /** A class row: its imports and star imports (null read as empty) and its source. */
  datatype ClassRow = ClassRow(fullName: string, name: string, imports: seq<string>, starImports: seq<string>,
                               source: Option<string>)

  datatype ListenerNode = ListenerNode(methodFullName: string, destination: string,
                                       selector: ArgValue, concurrency: ArgValue, containerFactory: ArgValue)

  datatype ProducerNode = ProducerNode(classFullName: string, name: string)

  datatype JmsStats = JmsStats(listeners: nat, producers: nat, destinations: nat)

  /** The keys whose graph writes raise: destination merges by name, listener nodes and their
    * LISTENS_ON edges by method, producer nodes by class, SENDS_TO edges by (class, destination). */
  datatype Failures = Failures(merges: set<string>, listeners: set<string>, listensOn: set<string>,
                               producers: set<string>, sendsTo: set<(string, string)>)

  predicate NoFailures(f: Failures) {
    f.merges == {} && f.listeners == {} && f.listensOn == {} && f.producers == {} && f.sendsTo == {}
  }

  /** A destination can be linked once it is seen, or when its merge does not raise. */
  predicate Mergeable(seen: set<string>, d: string, f: Failures) {
    d in seen || d !in f.merges
  }

  /** No destination whose merge raises is seen. */
  predicate SeenClean(seen: set<string>, f: Failures) {
    forall d :: d in seen ==> d !in f.merges
  }

  /** What the run has written so far, with `destinations_seen` and the counters. */
  datatype JmsState = JmsState(seen: set<string>, merged: seq<string>,
                               listeners: seq<ListenerNode>, listensOn: seq<(string, string)>,
                               producers: seq<ProducerNode>, sendsTo: seq<(string, string)>, stats: JmsStats)

  const Initial := JmsState({}, [], [], [], [], [], JmsStats(0, 0, 0))

  /** Each destination is merged at most once, `destinations_seen` is exactly the merged ones,
    * and the destination counter counts them. */
  ghost predicate MergeInv(st: JmsState) {
    && (forall i, j :: 0 <= i < j < |st.merged| ==> st.merged[i] != st.merged[j])
    && (forall d :: d in st.seen <==> d in st.merged)
    && st.stats.destinations == |st.merged|
  }

  /** `_merge_destination` for a destination not seen before, and the bookkeeping after it. */
  method MergeDestination(st: JmsState, d: string, f: Failures) returns (st': JmsState, ok: bool)
    requires d !in st.seen && MergeInv(st)
    ensures ok <==> d !in f.merges
    ensures ok ==> st' == st.(seen := st.seen + {d}, merged := st.merged + [d],
                              stats := st.stats.(destinations := st.stats.destinations + 1))
    ensures !ok ==> st' == st
    ensures MergeInv(st')
  {
    if d in f.merges {
      return st, false;
    }
    st' := st.(seen := st.seen + {d}, merged := st.merged + [d], stats := st.stats.(destinations := st.stats.destinations + 1));
    ok := true;
  }

  // ---------------------------------------------------------------------------------------
  // Listeners
  // ---------------------------------------------------------------------------------------

  /** The listener node a method row gets: none without a `@JmsListener` annotation; otherwise
    * the first such annotation's destination and its selector, concurrency and container factory
    * arguments as given ("" when absent). */
  function ListenerOf(row: ListenerRow): Option<ListenerNode> {
    match GetAnnotation(ParseJson(row.annotations), {JmsListenerFqn})
    case None => None
    case Some(ann) =>
      var args := ArgsOf(ann);
      Some(ListenerNode(row.methodFullName, ListenerDestination(args),
                        if "selector" in args then args["selector"] else Str(""),
                        if "concurrency" in args then args["concurrency"] else Str(""),
                        if "containerFactory" in args then args["containerFactory"] else Str("")))
  }

  /** A method is a listener exactly when one of its annotations is `@JmsListener`. */
  lemma ListenerIffAnnotated(row: ListenerRow)
    ensures ListenerOf(row).Some? <==>
            exists i :: 0 <= i < |ParseJson(row.annotations)| && ParseJson(row.annotations)[i].name == JmsListenerFqn
  {
    var anns := ParseJson(row.annotations);
    if exists i :: 0 <= i < |anns| && anns[i].name == JmsListenerFqn {
      var i :| 0 <= i < |anns| && anns[i].name == JmsListenerFqn;
      assert anns[i].name in {JmsListenerFqn};
    } else {
      assert forall i :: 0 <= i < |anns| ==> anns[i].name !in {JmsListenerFqn};
    }
  }

  /** `d` is the non-empty destination of a listener among the rows. */
  ghost predicate IsListenerDest(rows: seq<ListenerRow>, d: string) {
    d != "" && exists r :: r in rows && ListenerOf(r).Some? && ListenerOf(r).value.destination == d
  }

  /** Every listener node comes from a row, every LISTENS_ON edge joins a written listener to its
    * non-empty, merged destination, and the listener counter never exceeds the nodes written. */
  ghost predicate ListenersSound(st: JmsState, rows: seq<ListenerRow>) {
    && (forall n :: n in st.listeners ==> exists r :: r in rows && ListenerOf(r) == Some(n))
    && (forall e :: e in st.listensOn ==>
          e.1 != "" && e.1 in st.seen && exists n :: n in st.listeners && (n.methodFullName, n.destination) == e)
    && st.stats.listeners <= |st.listeners|
  }

  /** The listener nodes of the rows in order, when no write fails. */
  function ListenersOf(rows: seq<ListenerRow>): seq<ListenerNode> {
    if rows == [] then []
    else ListenersOf(rows[..|rows| - 1]) + (match ListenerOf(rows[|rows| - 1]) case Some(n) => [n] case None => [])
  }

  /** A node is among `ListenersOf(rows)` exactly when some row yields it. */
  lemma {:induction false} ListenersOfMembers(rows: seq<ListenerRow>)
    ensures forall n :: n in ListenersOf(rows) <==> exists r :: r in rows && ListenerOf(r) == Some(n)
  {
    if rows != [] {
      var init := rows[..|rows| - 1];
      ListenersOfMembers(init);
      assert forall r :: r in rows <==> r in init || r == rows[|rows| - 1];
    }
  }

  /** Without failures every listener is written and counted, with its LISTENS_ON edge and its
    * destination seen when that destination is non-empty. */
  ghost predicate ListenersComplete(st: JmsState, rows: seq<ListenerRow>) {
    && st.listeners == ListenersOf(rows)
    && st.stats.listeners == |st.listeners|
    && (forall n :: n in st.listeners && n.destination != "" ==>
          (n.methodFullName, n.destination) in st.listensOn && n.destination in st.seen)
  }

  /** The destination of a row's listener, "" for a row without one. */
  function RowDestination(row: ListenerRow): string {
    match ListenerOf(row) case Some(n) => n.destination case None => ""
  }

  /** The row's listener node is written, `seen` being the destinations seen before the row: it
    * is a listener, its non-empty destination is seen or merges, and the node write does not raise. */
  predicate ListenerWritten(seen: set<string>, row: ListenerRow, f: Failures) {
    && ListenerOf(row).Some?
    && (RowDestination(row) == "" || Mergeable(seen, RowDestination(row), f))
    && row.methodFullName !in f.listeners
  }

  /** The row's listener is counted: its node is written and, when its destination is non-empty,
    * so is its LISTENS_ON edge. */
  predicate ListenerCounted(seen: set<string>, row: ListenerRow, f: Failures) {
    ListenerWritten(seen, row, f) && (RowDestination(row) == "" || row.methodFullName !in f.listensOn)
  }

  /** What one listener row does to the state: nothing to the producer side; for a row without
    * a listener, nothing at all; otherwise its non-empty destination is merged when not seen and
    * its merge does not raise, the node is written exactly when `ListenerWritten`, and the
    * LISTENS_ON edge (for a non-empty destination) and the count are added exactly when
    * `ListenerCounted`. */
  ghost predicate ListenerStep(st: JmsState, st': JmsState, row: ListenerRow, f: Failures) {
    && st'.producers == st.producers && st'.sendsTo == st.sendsTo && st'.stats.producers == st.stats.producers
    && (ListenerOf(row).None? ==> st' == st)
    && (ListenerOf(row).Some? ==>
          var n := ListenerOf(row).value;
          var merges := n.destination != "" && n.destination !in st.seen && n.destination !in f.merges;
          var counted := ListenerCounted(st.seen, row, f);
          && st'.merged == st.merged + (if merges then [n.destination] else [])
          && st'.seen == st.seen + (if merges then {n.destination} else {})
          && st'.listeners == st.listeners + (if ListenerWritten(st.seen, row, f) then [n] else [])
          && st'.listensOn == st.listensOn + (if counted && n.destination != "" then [(n.methodFullName, n.destination)] else [])
          && st'.stats.listeners == st.stats.listeners + (if counted then 1 else 0))
  }

  /** A listener step from a row of the run keeps the soundness facts. */
  lemma ListenerStepSound(st: JmsState, st': JmsState, row: ListenerRow, rows: seq<ListenerRow>, f: Failures)
    requires ListenerStep(st, st', row, f) && row in rows
    requires ListenersSound(st, rows) && forall d :: d in st.merged ==> IsListenerDest(rows, d)
    ensures ListenersSound(st', rows) && forall d :: d in st'.merged ==> IsListenerDest(rows, d)
  {
    if ListenerOf(row).Some? {
      var n := ListenerOf(row).value;
      forall d | d in st'.merged
        ensures IsListenerDest(rows, d)
      {
        if d !in st.merged {
          assert d == n.destination;
        }
      }
      forall x | x in st'.listeners
        ensures exists r :: r in rows && ListenerOf(r) == Some(x)
      {
        if x !in st.listeners {
          assert x == n;
        }
      }
      forall e | e in st'.listensOn
        ensures e.1 != "" && e.1 in st'.seen && exists x :: x in st'.listeners && (x.methodFullName, x.destination) == e
      {
        if e in st.listensOn {
          var x :| x in st.listeners && (x.methodFullName, x.destination) == e;
          assert x in st'.listeners;
        } else {
          assert e == (n.methodFullName, n.destination);
          assert n in st'.listeners;
        }
      }
    }
  }

  /** Without failures a listener step extends the completeness facts by its row. */
  lemma ListenerStepComplete(st: JmsState, st': JmsState, row: ListenerRow, done: seq<ListenerRow>, f: Failures)
    requires ListenerStep(st, st', row, f) && NoFailures(f) && ListenersComplete(st, done)
    ensures ListenersComplete(st', done + [row])
  {
    assert (done + [row])[..|done|] == done;
  }

  /** The listener nodes written for the rows in order, given the failures. */
  function WrittenListeners(rows: seq<ListenerRow>, f: Failures): seq<ListenerNode> {
    if rows == [] then []
    else
      var last := rows[|rows| - 1];
      WrittenListeners(rows[..|rows| - 1], f) + (if ListenerWritten({}, last, f) then [ListenerOf(last).value] else [])
  }

  /** How many of the rows' listeners are counted, given the failures. */
  function CountedListeners(rows: seq<ListenerRow>, f: Failures): nat {
    if rows == [] then 0
    else CountedListeners(rows[..|rows| - 1], f) + (if ListenerCounted({}, rows[|rows| - 1], f) then 1 else 0)
  }

  /** Row by row, whatever the failures: exactly the written listeners are written and exactly the
    * counted ones counted; every counted listener with a non-empty destination has its LISTENS_ON
    * edge, and every edge is such a listener's; every non-empty destination whose merge does not
    * raise is seen. */
  ghost predicate ListenersExact(st: JmsState, rows: seq<ListenerRow>, f: Failures) {
    && st.listeners == WrittenListeners(rows, f)
    && st.stats.listeners == CountedListeners(rows, f)
    && ListenEdgesExact(st.listensOn, rows, f)
    && (forall r :: r in rows && ListenerOf(r).Some? && RowDestination(r) != "" && RowDestination(r) !in f.merges ==>
          RowDestination(r) in st.seen)
  }

  /** Once no seen destination's merge raises, a row's outcome does not depend on what is seen. */
  lemma ListenerOutcomeClean(seen: set<string>, row: ListenerRow, f: Failures)
    requires SeenClean(seen, f)
    ensures ListenerWritten(seen, row, f) == ListenerWritten({}, row, f)
    ensures ListenerCounted(seen, row, f) == ListenerCounted({}, row, f)
  {
  }

  /** Every counted listener with a non-empty destination has its LISTENS_ON edge, and every
    * edge is such a listener's. */
  ghost predicate ListenEdgesExact(listensOn: seq<(string, string)>, rows: seq<ListenerRow>, f: Failures) {
    && (forall r :: r in rows && ListenerCounted({}, r, f) && RowDestination(r) != "" ==>
          (r.methodFullName, RowDestination(r)) in listensOn)
    && (forall e :: e in listensOn ==>
          exists r :: r in rows && ListenerCounted({}, r, f) && RowDestination(r) != "" && e == (r.methodFullName, RowDestination(r)))
  }

  /** Adding the edge of a counted row with a non-empty destination, and only then, keeps the
    * edges exact. */
  lemma ListenEdgesStep(listensOn: seq<(string, string)>, row: ListenerRow, done: seq<ListenerRow>, f: Failures)
    requires ListenEdgesExact(listensOn, done, f)
    ensures var e := (row.methodFullName, RowDestination(row));
            var counted := ListenerCounted({}, row, f) && RowDestination(row) != "";
            ListenEdgesExact(listensOn + (if counted then [e] else []), done + [row], f)
  {
    var rows := done + [row];
    var e := (row.methodFullName, RowDestination(row));
    var next := listensOn + (if ListenerCounted({}, row, f) && RowDestination(row) != "" then [e] else []);
    forall r | r in rows && ListenerCounted({}, r, f) && RowDestination(r) != ""
      ensures (r.methodFullName, RowDestination(r)) in next
    {
      if r != row {
        assert (r.methodFullName, RowDestination(r)) in listensOn;
      }
    }
    forall x | x in next
      ensures exists r :: r in rows && ListenerCounted({}, r, f) && RowDestination(r) != "" && x == (r.methodFullName, RowDestination(r))
    {
      if x in listensOn {
        var r :| r in done && ListenerCounted({}, r, f) && RowDestination(r) != "" && x == (r.methodFullName, RowDestination(r));
        assert r in rows;
      } else {
        assert row in rows;
      }
    }
  }

  /** A listener step extends the row-by-row facts by its row and keeps the seen destinations clean. */
  lemma ListenerStepExact(st: JmsState, st': JmsState, row: ListenerRow, done: seq<ListenerRow>, f: Failures)
    requires ListenerStep(st, st', row, f) && SeenClean(st.seen, f) && ListenersExact(st, done, f)
    ensures SeenClean(st'.seen, f) && ListenersExact(st', done + [row], f)
  {
    assert (done + [row])[..|done|] == done;
    ListenerOutcomeClean(st.seen, row, f);
    ListenEdgesStep(st.listensOn, row, done, f);
  }

  /** One listener row: merge its destination when new and non-empty, write the listener, then
    * its LISTENS_ON edge when the destination is non-empty; the listener is counted only when
    * all of these succeed, and the first failing write ends the row. */
  method ProcessListener(st: JmsState, row: ListenerRow, f: Failures) returns (st': JmsState)
    requires MergeInv(st)
    ensures MergeInv(st') && ListenerStep(st, st', row, f)
  {
    st' := st;
    var node := ListenerOf(row);
    if node.None? {
      return;
    }
    var n := node.value;
    var dest := n.destination;
    if dest != "" && dest !in st'.seen {
      var ok;
      st', ok := MergeDestination(st', dest, f);
      if !ok {
        return;
      }
    }
    if row.methodFullName in f.listeners {
      return;
    }
    st' := st'.(listeners := st'.listeners + [n]);
    if dest != "" {
      if row.methodFullName in f.listensOn {
        return;
      }
      st' := st'.(listensOn := st'.listensOn + [(n.methodFullName, dest)]);
    }
    st' := st'.(stats := st'.stats.(listeners := st'.stats.listeners + 1));
  }

  /** `_process_listeners` at the start of a run: every method row in turn. */
  method ProcessListeners(rows: seq<ListenerRow>, f: Failures) returns (st: JmsState)
    ensures MergeInv(st) && ListenersSound(st, rows)
    ensures forall d :: d in st.merged ==> IsListenerDest(rows, d)
    ensures st.producers == [] && st.sendsTo == [] && st.stats.producers == 0
    ensures SeenClean(st.seen, f) && ListenersExact(st, rows, f)
    ensures NoFailures(f) ==> ListenersComplete(st, rows)
  {
    st := Initial;
    for i := 0 to |rows|
      invariant MergeInv(st) && ListenersSound(st, rows)
      invariant forall d :: d in st.merged ==> IsListenerDest(rows, d)
      invariant st.producers == [] && st.sendsTo == [] && st.stats.producers == 0
      invariant SeenClean(st.seen, f) && ListenersExact(st, rows[..i], f)
      invariant NoFailures(f) ==> ListenersComplete(st, rows[..i])
    {
      var st0 := st;
      st := ProcessListener(st, rows[i], f);
      ListenerStepSound(st0, st, rows[i], rows, f);
      ListenerStepExact(st0, st, rows[i], rows[..i], f);
      assert rows[..i + 1] == rows[..i] + [rows[i]];
      if NoFailures(f) {
        ListenerStepComplete(st0, st, rows[i], rows[..i], f);
        assert rows[..i + 1] == rows[..i] + [rows[i]];
      }
    }
    assert rows[..|rows|] == rows;
  }

  // ---------------------------------------------------------------------------------------
  // Producers
  // ---------------------------------------------------------------------------------------

  /** The producer query's filter: the class imports JmsTemplate, or star-imports its package. */
  predicate IsProducerCandidate(row: ClassRow) {
    JmsTemplateFqn in row.imports || JmsTemplatePkg in row.starImports
  }

  /** The source of a class row, "" when it has none. */
  function SourceOf(row: ClassRow): string {
    match row.source case Some(src) => src case None => ""
  }

  /** The literal destinations a class sends to. */
  function ProducerLiterals(row: ClassRow): set<string> {
    SendLiterals(SourceOf(row))
  }

  /** The producer node a class row gets: one exactly when it passes the query's filter and its
    * source calls a send method. */
  function ProducerOf(row: ClassRow): (r: Option<ProducerNode>)
    ensures r.Some? <==> IsProducerCandidate(row) && HasSendCall(SourceOf(row))
    ensures r.Some? ==> r.value == ProducerNode(row.fullName, row.name)
  {
    if IsProducerCandidate(row) && HasSendCall(SourceOf(row)) then Some(ProducerNode(row.fullName, row.name)) else None
  }

  /** A candidate class with a literal send destination is a producer. */
  lemma LiteralMakesProducer(row: ClassRow)
    requires IsProducerCandidate(row) && ProducerLiterals(row) != {}
    ensures ProducerOf(row).Some?
  {
    LiteralsNeedSendCall(SourceOf(row));
  }

  /** `d` is a literal destination of a producer among the rows. */
  ghost predicate IsProducerDest(rows: seq<ClassRow>, d: string) {
    exists r :: r in rows && ProducerOf(r).Some? && d in ProducerLiterals(r)
  }

  /** One destination of a producer: merge it when not seen, then write its SENDS_TO edge; `ok`
    * says both succeeded, and a failing merge leaves the edge unwritten. */
  method SendTo(st: JmsState, cls: string, d: string, f: Failures) returns (st': JmsState, ok: bool)
    requires MergeInv(st)
    ensures MergeInv(st')
    ensures ok <==> Mergeable(st.seen, d, f) && (cls, d) !in f.sendsTo
    ensures st'.listeners == st.listeners && st'.listensOn == st.listensOn && st'.producers == st.producers
    ensures st'.stats.listeners == st.stats.listeners && st'.stats.producers == st.stats.producers
    ensures st'.merged == st.merged + (if d !in st.seen && d !in f.merges then [d] else [])
    ensures st'.seen == st.seen + (if d !in st.seen && d !in f.merges then {d} else {})
    ensures st'.sendsTo == st.sendsTo + (if ok then [(cls, d)] else [])
  {
    st' := st;
    if d !in st'.seen {
      var merged;
      st', merged := MergeDestination(st', d, f);
      if !merged {
        return st', false;
      }
    }
    if (cls, d) in f.sendsTo {
      return st', false;
    }
    st' := st'.(sendsTo := st'.sendsTo + [(cls, d)]);
    ok := true;
  }

  /** The SENDS_TO loop of one producer over its destinations, in the set's own order: merge each
    * one not seen yet, then write its edge; the first failing write stops the loop and reports it. */
  method SendToAll(st: JmsState, cls: string, dests: set<string>, f: Failures) returns (st': JmsState, ok: bool)
    requires MergeInv(st)
    ensures MergeInv(st')
    ensures st'.listeners == st.listeners && st'.listensOn == st.listensOn && st'.producers == st.producers
    ensures st'.stats.listeners == st.stats.listeners && st'.stats.producers == st.stats.producers
    ensures st.seen <= st'.seen && st.merged <= st'.merged
    ensures forall i :: |st.merged| <= i < |st'.merged| ==> st'.merged[i] in dests
    ensures st.sendsTo <= st'.sendsTo
    ensures forall i :: |st.sendsTo| <= i < |st'.sendsTo| ==>
              st'.sendsTo[i].0 == cls && st'.sendsTo[i].1 in dests && st'.sendsTo[i].1 in st'.seen
    ensures ok ==> forall d :: d in dests ==> (cls, d) in st'.sendsTo && d in st'.seen
    ensures ok <==> forall d :: d in dests ==> Mergeable(st.seen, d, f) && (cls, d) !in f.sendsTo
    ensures forall d :: d in st'.seen ==> d in st.seen || (d in dests && d !in f.merges)
  {
    st' := st;
    var remaining := dests;
    while remaining != {}
      invariant remaining <= dests
      invariant MergeInv(st')
      invariant st'.listeners == st.listeners && st'.listensOn == st.listensOn && st'.producers == st.producers
      invariant st'.stats.listeners == st.stats.listeners && st'.stats.producers == st.stats.producers
      invariant st.seen <= st'.seen && st.merged <= st'.merged
      invariant forall i :: |st.merged| <= i < |st'.merged| ==> st'.merged[i] in dests
      invariant st.sendsTo <= st'.sendsTo
      invariant forall i :: |st.sendsTo| <= i < |st'.sendsTo| ==>
                  st'.sendsTo[i].0 == cls && st'.sendsTo[i].1 in dests && st'.sendsTo[i].1 in st'.seen
      invariant forall d :: d in dests && d !in remaining ==>
                  (cls, d) in st'.sendsTo && d in st'.seen && Mergeable(st.seen, d, f) && (cls, d) !in f.sendsTo
      invariant forall d :: d in st'.seen ==> d in st.seen || (d in dests && d !in f.merges)
      decreases remaining
    {
      var d :| d in remaining;
      var sent;
      st', sent := SendTo(st', cls, d, f);
      if !sent {
        return st', false;
      }
      remaining := remaining - {d};
    }
    ok := true;
  }

  /** The row's producer node is written: it is a producer and its node write does not raise. */
  predicate ProducerWritten(row: ClassRow, f: Failures) {
    ProducerOf(row).Some? && row.fullName !in f.producers
  }

  /** The row's producer is counted, `seen` being the destinations seen before the row: its node
    * is written and every literal destination is seen or merges, and is linked, without raising. */
  predicate ProducerCounted(seen: set<string>, row: ClassRow, f: Failures) {
    && ProducerWritten(row, f)
    && forall d :: d in ProducerLiterals(row) ==> Mergeable(seen, d, f) && (row.fullName, d) !in f.sendsTo
  }

  /** What one class row does to the state: nothing to the listener side; for a row that is not
    * a producer, nothing at all; otherwise its node is written exactly when `ProducerWritten`;
    * some of its literal destinations are merged (only those whose merge does not raise) and
    * linked (only once the node is written); it is counted exactly when `ProducerCounted`, and
    * then all its literal destinations are seen and linked. */
  ghost predicate ProducerStep(st: JmsState, st': JmsState, row: ClassRow, f: Failures) {
    && st'.listeners == st.listeners && st'.listensOn == st.listensOn && st'.stats.listeners == st.stats.listeners
    && (ProducerOf(row).None? ==> st' == st)
    && st.seen <= st'.seen && st.merged <= st'.merged
    && (forall d :: d in st'.seen ==> d in st.seen || (d in ProducerLiterals(row) && d !in f.merges))
    && (forall i :: |st.merged| <= i < |st'.merged| ==> st'.merged[i] in ProducerLiterals(row))
    && st'.producers == st.producers + (if ProducerWritten(row, f) then [ProducerOf(row).value] else [])
    && st.sendsTo <= st'.sendsTo
    && (|st.sendsTo| < |st'.sendsTo| ==> ProducerWritten(row, f))
    && (forall i :: |st.sendsTo| <= i < |st'.sendsTo| ==>
          st'.sendsTo[i].0 == row.fullName && st'.sendsTo[i].1 in ProducerLiterals(row) && st'.sendsTo[i].1 in st'.seen)
    && st'.stats.producers == st.stats.producers + (if ProducerCounted(st.seen, row, f) then 1 else 0)
    && (ProducerCounted(st.seen, row, f) ==>
          forall d :: d in ProducerLiterals(row) ==> (row.fullName, d) in st'.sendsTo && d in st'.seen)
  }

  /** One class row of `_process_producers`: scan its source; a class without send calls is
    * skipped; otherwise write the producer node, then merge and link each destination, and count
    * the producer once all of these succeed. The first failing write ends the row. */
  method ProcessProducer(st: JmsState, row: ClassRow, f: Failures) returns (st': JmsState)
    requires MergeInv(st)
    ensures MergeInv(st') && ProducerStep(st, st', row, f)
  {
    st' := st;
    if !IsProducerCandidate(row) {
      return;
    }
    var dests, hasSendCalls := ScanSource(SourceOf(row));
    if !hasSendCalls {
      return;
    }
    if row.fullName in f.producers {
      return;
    }
    st' := st'.(producers := st'.producers + [ProducerNode(row.fullName, row.name)]);
    var ok;
    st', ok := SendToAll(st', row.fullName, dests, f);
    if ok {
      st' := st'.(stats := st'.stats.(producers := st'.stats.producers + 1));
    }
  }

  /** Every producer node comes from a class row, every SENDS_TO edge joins a written producer
    * to a merged literal destination of its class, and the producer counter never exceeds the
    * nodes written. */
  ghost predicate ProducersSound(st: JmsState, rows: seq<ClassRow>) {
    && (forall p :: p in st.producers ==> exists r :: r in rows && ProducerOf(r) == Some(p))
    && (forall e :: e in st.sendsTo ==>
          && e.1 in st.seen
          && (exists p :: p in st.producers && p.classFullName == e.0)
          && exists r :: r in rows && ProducerOf(r).Some? && r.fullName == e.0 && e.1 in ProducerLiterals(r))
    && st.stats.producers <= |st.producers|
  }

  /** The producer nodes of the rows in order, when no write fails. */
  function ProducersOf(rows: seq<ClassRow>): seq<ProducerNode> {
    if rows == [] then []
    else ProducersOf(rows[..|rows| - 1]) + (match ProducerOf(rows[|rows| - 1]) case Some(p) => [p] case None => [])
  }

  /** Without failures every producer is written and counted, and every literal destination of
    * its class is seen and linked to it. */
  ghost predicate ProducersComplete(st: JmsState, rows: seq<ClassRow>) {
    && st.producers == ProducersOf(rows)
    && st.stats.producers == |st.producers|
    && ProducerLinksComplete(st, rows)
  }

  /** Every literal destination of every producer among the rows is seen and linked to it. */
  ghost predicate ProducerLinksComplete(st: JmsState, rows: seq<ClassRow>) {
    forall r :: r in rows ==> RowLinked(st, r)
  }

  /** A producer's literal destinations are all seen and linked to it. */
  ghost predicate RowLinked(st: JmsState, r: ClassRow) {
    ProducerOf(r).Some? ==> forall d :: d in ProducerLiterals(r) ==> (r.fullName, d) in st.sendsTo && d in st.seen
  }

  /** What a prefix holds, its extension holds. */
  lemma PrefixMember<T>(a: seq<T>, b: seq<T>, x: T)
    requires a <= b && x in a
    ensures x in b
  {
    var j :| 0 <= j < |a| && a[j] == x;
    assert b[j] == x;
  }

  /** A producer step from a row of the run keeps the soundness facts. */
  lemma ProducerStepSound(st: JmsState, st': JmsState, row: ClassRow, rows: seq<ClassRow>, f: Failures)
    requires ProducerStep(st, st', row, f) && row in rows && ProducersSound(st, rows)
    ensures ProducersSound(st', rows)
  {
    forall e | e in st'.sendsTo
      ensures e.1 in st'.seen
      ensures exists p :: p in st'.producers && p.classFullName == e.0
      ensures exists r :: r in rows && ProducerOf(r).Some? && r.fullName == e.0 && e.1 in ProducerLiterals(r)
    {
      var i :| 0 <= i < |st'.sendsTo| && st'.sendsTo[i] == e;
      if i < |st.sendsTo| {
        assert e in st.sendsTo;
        var p :| p in st.producers && p.classFullName == e.0;
        assert p in st'.producers;
      } else {
        assert ProducerOf(row).value in st'.producers;
      }
    }
  }

  /** A producer step adds only destinations of the row's producer to what is merged. */
  lemma ProducerStepMerged(st: JmsState, st': JmsState, row: ClassRow, rows: seq<ClassRow>, f: Failures, k: nat)
    requires ProducerStep(st, st', row, f) && row in rows && k <= |st.merged|
    requires forall i :: k <= i < |st.merged| ==> IsProducerDest(rows, st.merged[i])
    ensures k <= |st'.merged| && forall i :: k <= i < |st'.merged| ==> IsProducerDest(rows, st'.merged[i])
  {
    forall i | k <= i < |st'.merged|
      ensures IsProducerDest(rows, st'.merged[i])
    {
      if i < |st.merged| {
        assert st'.merged[i] == st.merged[i];
      } else if ProducerOf(row).None? {
        assert false;
      }
    }
  }

  /** Links already made stay made, so adding a row's links extends the complete set by it. */
  lemma ProducerStepLinks(st: JmsState, st': JmsState, row: ClassRow, done: seq<ClassRow>)
    requires st.sendsTo <= st'.sendsTo && st.seen <= st'.seen && ProducerLinksComplete(st, done)
    requires ProducerOf(row).Some? ==>
               forall d :: d in ProducerLiterals(row) ==> (row.fullName, d) in st'.sendsTo && d in st'.seen
    ensures ProducerLinksComplete(st', done + [row])
  {
    forall r | r in done + [row]
      ensures RowLinked(st', r)
    {
      if r in done && ProducerOf(r).Some? {
        forall d | d in ProducerLiterals(r)
          ensures (r.fullName, d) in st'.sendsTo && d in st'.seen
        {
          PrefixMember(st.sendsTo, st'.sendsTo, (r.fullName, d));
        }
      }
    }
  }

  /** Without failures a producer step extends the completeness facts by its row. */
  lemma ProducerStepComplete(st: JmsState, st': JmsState, row: ClassRow, done: seq<ClassRow>, f: Failures)
    requires ProducerStep(st, st', row, f) && NoFailures(f) && ProducersComplete(st, done)
    ensures ProducersComplete(st', done + [row])
  {
    assert (done + [row])[..|done|] == done;
    ProducerStepLinks(st, st', row, done);
  }

  /** The producer nodes written for the rows in order, given the failures. */
  function WrittenProducers(rows: seq<ClassRow>, f: Failures): seq<ProducerNode> {
    if rows == [] then []
    else
      var last := rows[|rows| - 1];
      WrittenProducers(rows[..|rows| - 1], f) + (if ProducerWritten(last, f) then [ProducerOf(last).value] else [])
  }

  /** How many of the rows' producers are counted, given the failures. */
  function CountedProducers(rows: seq<ClassRow>, f: Failures): nat {
    if rows == [] then 0
    else CountedProducers(rows[..|rows| - 1], f) + (if ProducerCounted({}, rows[|rows| - 1], f) then 1 else 0)
  }

  /** Row by row, whatever the failures: exactly the written producers are written and exactly the
    * counted ones counted, and every counted producer has all its literal destinations seen and
    * linked to it. */
  ghost predicate ProducersExact(st: JmsState, rows: seq<ClassRow>, f: Failures) {
    && st.producers == WrittenProducers(rows, f)
    && st.stats.producers == CountedProducers(rows, f)
    && forall r :: r in rows && ProducerCounted({}, r, f) ==> RowLinked(st, r)
  }

  /** A producer step extends the row-by-row facts by its row and keeps the seen destinations clean. */
  lemma ProducerStepExact(st: JmsState, st': JmsState, row: ClassRow, done: seq<ClassRow>, f: Failures)
    requires ProducerStep(st, st', row, f) && SeenClean(st.seen, f) && ProducersExact(st, done, f)
    ensures SeenClean(st'.seen, f) && ProducersExact(st', done + [row], f)
  {
    var rows := done + [row];
    assert rows[..|done|] == done;
    assert ProducerCounted(st.seen, row, f) == ProducerCounted({}, row, f);
    forall r | r in rows && ProducerCounted({}, r, f)
      ensures RowLinked(st', r)
    {
      if r != row {
        assert RowLinked(st, r);
        forall d | d in ProducerLiterals(r)
          ensures (r.fullName, d) in st'.sendsTo && d in st'.seen
        {
          PrefixMember(st.sendsTo, st'.sendsTo, (r.fullName, d));
        }
      }
    }
  }

  /** The producer phase leaves the listener side alone, so its facts stay true as more is seen. */
  lemma ListenersKept(st: JmsState, st': JmsState, lrows: seq<ListenerRow>, f: Failures)
    requires st'.listeners == st.listeners && st'.listensOn == st.listensOn && st'.stats.listeners == st.stats.listeners
    requires st.seen <= st'.seen
    ensures ListenersSound(st, lrows) ==> ListenersSound(st', lrows)
    ensures ListenersComplete(st, lrows) ==> ListenersComplete(st', lrows)
    ensures ListenersExact(st, lrows, f) ==> ListenersExact(st', lrows, f)
  {
  }

  /** One producer step of the loop below keeps all of its invariants. */
  lemma ProducerPhaseStep(st0: JmsState, st: JmsState, st': JmsState, rows: seq<ClassRow>, i: nat, f: Failures)
    requires i < |rows| && ProducerStep(st, st', rows[i], f)
    requires ProducersSound(st, rows) && SeenClean(st.seen, f) && ProducersExact(st, rows[..i], f)
    requires st0.merged <= st.merged && forall j :: |st0.merged| <= j < |st.merged| ==> IsProducerDest(rows, st.merged[j])
    requires NoFailures(f) ==> ProducersComplete(st, rows[..i])
    ensures ProducersSound(st', rows) && SeenClean(st'.seen, f) && ProducersExact(st', rows[..i + 1], f)
    ensures st0.merged <= st'.merged && forall j :: |st0.merged| <= j < |st'.merged| ==> IsProducerDest(rows, st'.merged[j])
    ensures NoFailures(f) ==> ProducersComplete(st', rows[..i + 1])
  {
    assert rows[i] in rows;
    assert rows[..i + 1] == rows[..i] + [rows[i]];
    ProducerStepSound(st, st', rows[i], rows, f);
    ProducerStepMerged(st, st', rows[i], rows, f, |st0.merged|);
    ProducerStepExact(st, st', rows[i], rows[..i], f);
    if NoFailures(f) {
      ProducerStepComplete(st, st', rows[i], rows[..i], f);
    }
  }

  /** `_process_producers` after the listeners: every class row in turn. */
  method ProcessProducers(st0: JmsState, rows: seq<ClassRow>, ghost lrows: seq<ListenerRow>, f: Failures)
    returns (st: JmsState)
    requires MergeInv(st0) && ListenersSound(st0, lrows)
    requires st0.producers == [] && st0.sendsTo == [] && st0.stats.producers == 0
    requires SeenClean(st0.seen, f)
    ensures MergeInv(st) && ListenersSound(st, lrows) && ProducersSound(st, rows)
    ensures st.listeners == st0.listeners && st.listensOn == st0.listensOn && st.stats.listeners == st0.stats.listeners
    ensures st0.seen <= st.seen && st0.merged <= st.merged
    ensures forall i :: |st0.merged| <= i < |st.merged| ==> IsProducerDest(rows, st.merged[i])
    ensures SeenClean(st.seen, f) && ProducersExact(st, rows, f)
    ensures NoFailures(f) ==> ProducersComplete(st, rows)
  {
    st := st0;
    for i := 0 to |rows|
      invariant MergeInv(st) && ProducersSound(st, rows)
      invariant st.listeners == st0.listeners && st.listensOn == st0.listensOn && st.stats.listeners == st0.stats.listeners
      invariant st0.seen <= st.seen && st0.merged <= st.merged
      invariant forall i :: |st0.merged| <= i < |st.merged| ==> IsProducerDest(rows, st.merged[i])
      invariant SeenClean(st.seen, f) && ProducersExact(st, rows[..i], f)
      invariant NoFailures(f) ==> ProducersComplete(st, rows[..i])
    {
      var prev := st;
      assert rows[i] in rows;
      st := ProcessProducer(st, rows[i], f);
      ProducerPhaseStep(st0, prev, st, rows, i, f);
    }
    assert rows[..|rows|] == rows;
    ListenersKept(st0, st, lrows, f);
  }

  /** A sequence without repeats has as many elements as the set of them. */
  lemma {:induction false} DistinctCard(s: seq<string>, elems: set<string>)
    requires forall i, j :: 0 <= i < j < |s| ==> s[i] != s[j]
    requires forall d :: d in elems <==> d in s
    ensures |elems| == |s|
  {
    if s != [] {
      var last := s[|s| - 1];
      var init := s[..|s| - 1];
      assert forall d :: d in s <==> d in init || d == last;
      DistinctCard(init, elems - {last});
    }
  }

  /** Without failures, what is seen is exactly the listeners' non-empty destinations and the
    * producers' literal destinations. */
  lemma SeenComplete(st: JmsState, lrows: seq<ListenerRow>, crows: seq<ClassRow>)
    requires ListenersComplete(st, lrows) && ProducersComplete(st, crows)
    ensures forall d :: IsListenerDest(lrows, d) || IsProducerDest(crows, d) ==> d in st.seen
  {
    ListenersOfMembers(lrows);
    forall d | IsListenerDest(lrows, d) || IsProducerDest(crows, d)
      ensures d in st.seen
    {
      if IsListenerDest(lrows, d) {
        var r :| r in lrows && ListenerOf(r).Some? && ListenerOf(r).value.destination == d;
        assert ListenerOf(r).value in st.listeners;
      } else {
        var r :| r in crows && ProducerOf(r).Some? && d in ProducerLiterals(r);
        assert RowLinked(st, r);
      }
    }
  }

  /** The first `k` merged destinations are listeners', the rest producers'. */
  ghost predicate MergedInPhases(merged: seq<string>, k: nat, lrows: seq<ListenerRow>, crows: seq<ClassRow>) {
    && k <= |merged|
    && (forall i :: 0 <= i < k ==> IsListenerDest(lrows, merged[i]))
    && (forall i :: k <= i < |merged| ==> IsProducerDest(crows, merged[i]))
  }

  /** The listener phase's merges followed by the producer phase's are in phases. */
  lemma PhasesJoin(m1: seq<string>, m: seq<string>, lrows: seq<ListenerRow>, crows: seq<ClassRow>)
    requires m1 <= m && forall d :: d in m1 ==> IsListenerDest(lrows, d)
    requires forall i :: |m1| <= i < |m| ==> IsProducerDest(crows, m[i])
    ensures MergedInPhases(m, |m1|, lrows, crows)
  {
    forall i | 0 <= i < |m1|
      ensures IsListenerDest(lrows, m[i])
    {
      assert m[i] == m1[i] && m1[i] in m1;
    }
  }

  /** Whatever is merged in phases comes from a listener or a producer. */
  lemma PhasesSound(st: JmsState, k: nat, lrows: seq<ListenerRow>, crows: seq<ClassRow>)
    requires MergeInv(st) && MergedInPhases(st.merged, k, lrows, crows)
    ensures forall d :: d in st.seen ==> IsListenerDest(lrows, d) || IsProducerDest(crows, d)
  {
    forall d | d in st.seen
      ensures IsListenerDest(lrows, d) || IsProducerDest(crows, d)
    {
      var i :| 0 <= i < |st.merged| && st.merged[i] == d;
    }
  }

  /** `enrich_from_graph`: listeners, then producers, sharing `destinations_seen`. Every node and
    * edge written comes from the rows; each destination is merged once and counted once; the
    * listeners' destinations are merged before the producers'; and without failures every
    * listener, producer, edge and destination is written and counted. */
  method EnrichFromGraph(lrows: seq<ListenerRow>, crows: seq<ClassRow>, f: Failures) returns (st: JmsState)
    ensures MergeInv(st) && st.stats.destinations == |st.seen|
    ensures ListenersSound(st, lrows) && ProducersSound(st, crows)
    ensures exists k :: MergedInPhases(st.merged, k, lrows, crows)
    ensures forall d :: d in st.seen ==> IsListenerDest(lrows, d) || IsProducerDest(crows, d)
    ensures SeenClean(st.seen, f) && ListenersExact(st, lrows, f) && ProducersExact(st, crows, f)
    ensures NoFailures(f) ==> ListenersComplete(st, lrows) && ProducersComplete(st, crows)
    ensures NoFailures(f) ==> forall d :: d in st.seen <==> IsListenerDest(lrows, d) || IsProducerDest(crows, d)
  {
    var st1 := ProcessListeners(lrows, f);
    st := ProcessProducers(st1, crows, lrows, f);
    PhasesJoin(st1.merged, st.merged, lrows, crows);
    PhasesSound(st, |st1.merged|, lrows, crows);
    DistinctCard(st.merged, st.seen);
    ListenersKept(st1, st, lrows, f);
    if NoFailures(f) {
      SeenComplete(st, lrows, crows);
    }
  }
}
