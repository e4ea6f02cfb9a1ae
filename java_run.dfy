/** The file loop of the Java extractor's `run` (backend/app/analyzers/java_maven.py): which
  * files count as parsed, the package/class/method/parse-error counters, the hand-off to the
  * call resolver and the summary line. Parsing is outside the model: each file arrives as the
  * outcome of its parse. The package, class and method node writes are modelled by which of
  * them raise: a raising write ends its file's iteration inside the same `try` as the parse. */
module JavaRun {
  import opened Strs
  import CallResolver
  import opened Wrappers

  /** What parsing one file gave: an exception, no types, or a package and its classes. */
  datatype FileOutcome = Failed | NoTypes | Parsed(pkg: string, classes: seq<CallResolver.ClassInfo>)

  datatype RunStats = RunStats(packages: nat, classes: nat, methods: nat, parseErrors: nat)

  /** A node write of the file loop: a package, a class (by full name) or a method of a class. */
  datatype Write = PackageNode(pkg: string) | ClassNode(fullName: string) | MethodNode(owner: string, name: string)

  /** The loop's running state: the counters, `packages_seen` and `all_classes`. */
  datatype Tally = Tally(stats: RunStats, seen: set<string>, classes: seq<CallResolver.ClassInfo>)

  /** The number of files whose parse raised. */
  function ParseErrors(files: seq<FileOutcome>): nat {
    if files == [] then 0
    else ParseErrors(files[..|files| - 1]) + (if files[|files| - 1].Failed? then 1 else 0)
  }

  /** The classes of all parsed files, in file order. */
  function AllClasses(files: seq<FileOutcome>): seq<CallResolver.ClassInfo> {
    if files == [] then []
    else
      var f := files[|files| - 1];
      AllClasses(files[..|files| - 1]) + (if f.Parsed? then f.classes else [])
  }

  function MethodTotal(classes: seq<CallResolver.ClassInfo>): nat {
    if classes == [] then 0 else MethodTotal(classes[..|classes| - 1]) + |classes[|classes| - 1].methods|
  }

  /** The non-empty package names of files that yielded at least one type. */
  function PackagesOf(files: seq<FileOutcome>): set<string> {
    if files == [] then {}
    else
      var f := files[|files| - 1];
      PackagesOf(files[..|files| - 1]) + (if f.Parsed? && f.classes != [] && f.pkg != "" then {f.pkg} else {})
  }

  /** A run has no parse errors exactly when no file's parse raised, and never more errors than
    * files. */
  lemma {:induction false} ParseErrorsCount(files: seq<FileOutcome>)
    ensures ParseErrors(files) <= |files|
    ensures ParseErrors(files) == 0 <==> forall i :: 0 <= i < |files| ==> !files[i].Failed?
  {
    if files != [] {
      var init := files[..|files| - 1];
      ParseErrorsCount(init);
      assert forall i :: 0 <= i < |init| ==> init[i] == files[i];
    }
  }

  lemma {:induction false} MethodTotalAppend(a: seq<CallResolver.ClassInfo>, b: seq<CallResolver.ClassInfo>)
    ensures MethodTotal(a + b) == MethodTotal(a) + MethodTotal(b)
    decreases |b|
  {
    if b == [] {
      assert a + b == a;
    } else {
      assert (a + b)[..|a + b| - 1] == a + b[..|b| - 1];
      MethodTotalAppend(a, b[..|b| - 1]);
    }
  }

  /** The summary line: the four counts, and the parse-error count only when there were any. */
  function Summary(stats: RunStats, calls: nat): string {
    var base := NatToString(stats.packages) + " packages, " + NatToString(stats.classes) + " classes, "
                + NatToString(stats.methods) + " methods, " + NatToString(calls) + " calls";
    if stats.parseErrors > 0 then base + ", " + NatToString(stats.parseErrors) + " parse errors" else base
  }

  /** The summary ends with the parse-error clause exactly when the run had parse errors. */
  lemma SummaryMentionsErrors(stats: RunStats, calls: nat)
    ensures EndsWith(Summary(stats, calls), " parse errors") <==> stats.parseErrors > 0
  {
    var head := NatToString(stats.packages) + " packages, " + NatToString(stats.classes) + " classes, "
                + NatToString(stats.methods) + " methods, " + NatToString(calls);
    var base := head + " calls";
    if stats.parseErrors > 0 {
      SuffixAppend(base + ", " + NatToString(stats.parseErrors), " parse errors");
    } else {
      assert Summary(stats, calls) == base;
      SuffixAppend(head, " calls");
      assert base[|base| - 2] == 'l';
      assert |base| >= 13 ==> base[|base| - 13..][11] == 'l';
    }
  }

  // ---------------------------------------------------------------------------------------
  // One file
  // ---------------------------------------------------------------------------------------

  /** The method node writes of the methods `ms` of class `owner`, in order. */
  function MethodWrites(owner: string, ms: seq<CallResolver.MethodInfo>): seq<Write> {
    if ms == [] then [] else [MethodNode(owner, ms[0].name)] + MethodWrites(owner, ms[1..])
  }

  /** The writes of the class loop over `cs`: each class node, then its method nodes. */
  function ClassesWrites(cs: seq<CallResolver.ClassInfo>): seq<Write> {
    if cs == [] then []
    else [ClassNode(cs[0].fullName)] + MethodWrites(cs[0].fullName, cs[0].methods) + ClassesWrites(cs[1..])
  }

  /** The writes a file asks for when `seen` are the packages seen so far: its package when it
    * is new and non-empty, then its classes and methods; none for a file without types. */
  function FileWrites(f: FileOutcome, seen: set<string>): seq<Write> {
    if f.Parsed? && f.classes != [] then
      (if f.pkg != "" && f.pkg !in seen then [PackageNode(f.pkg)] else []) + ClassesWrites(f.classes)
    else []
  }

  /** The file's iteration raises: its parse raised, or one of its writes does. */
  predicate FileRaises(f: FileOutcome, fails: Write -> bool, seen: set<string>) {
    f.Failed? || exists w :: w in FileWrites(f, seen) && fails(w)
  }

  /** The number of leading methods of `ms` whose node write succeeds. */
  function MethodsWritten(owner: string, ms: seq<CallResolver.MethodInfo>, fails: Write -> bool): (k: nat)
    ensures k <= |ms|
    ensures forall j :: 0 <= j < k ==> !fails(MethodNode(owner, ms[j].name))
    ensures k < |ms| ==> fails(MethodNode(owner, ms[k].name))
  {
    if ms == [] then 0
    else if fails(MethodNode(owner, ms[0].name)) then 0
    else 1 + MethodsWritten(owner, ms[1..], fails)
  }

  /** The class loop of one file from tally `t`: each class node, then its method nodes, until
    * a write raises; the flag tells whether one did. */
  function WriteClasses(cs: seq<CallResolver.ClassInfo>, fails: Write -> bool, t: Tally): (Tally, bool) {
    if cs == [] then (t, false)
    else if fails(ClassNode(cs[0].fullName)) then (t, true)
    else
      var k := MethodsWritten(cs[0].fullName, cs[0].methods, fails);
      var t' := Tally(t.stats.(classes := t.stats.classes + 1, methods := t.stats.methods + k),
                      t.seen, t.classes + [cs[0]]);
      if k < |cs[0].methods| then (t', true) else WriteClasses(cs[1..], fails, t')
  }

  /** The `except` branch: one more parse error. */
  function Raised(t: Tally): Tally {
    t.(stats := t.stats.(parseErrors := t.stats.parseErrors + 1))
  }

  function AfterClasses(r: (Tally, bool)): Tally {
    if r.1 then Raised(r.0) else r.0
  }

  /** One iteration of the file loop from tally `t`, when the writes `fails` names raise. */
  function FileStep(f: FileOutcome, fails: Write -> bool, t: Tally): Tally {
    match f
    case Failed => Raised(t)
    case NoTypes => t
    case Parsed(pkg, cs) =>
      if cs == [] then t
      else if pkg != "" && pkg !in t.seen then
        var t1 := t.(seen := t.seen + {pkg});
        if fails(PackageNode(pkg)) then Raised(t1)
        else AfterClasses(WriteClasses(cs, fails, t1.(stats := t1.stats.(packages := t1.stats.packages + 1))))
      else AfterClasses(WriteClasses(cs, fails, t))
  }

  /** A raising method write stops the methods at the first one whose write raises. */
  lemma {:induction false} MethodsWrittenRaises(owner: string, ms: seq<CallResolver.MethodInfo>, fails: Write -> bool)
    ensures MethodsWritten(owner, ms, fails) < |ms| <==> exists w :: w in MethodWrites(owner, ms) && fails(w)
  {
    if ms != [] && !fails(MethodNode(owner, ms[0].name)) {
      MethodsWrittenRaises(owner, ms[1..], fails);
      var ws := MethodWrites(owner, ms);
      assert ws == [MethodNode(owner, ms[0].name)] + MethodWrites(owner, ms[1..]);
      forall w | w in ws && fails(w) ensures w in MethodWrites(owner, ms[1..]) { }
    }
  }

  /** The class loop raises exactly when one of its writes raises, and keeps the seen packages
    * and the package and parse-error counters. */
  lemma {:induction false} WriteClassesRaises(cs: seq<CallResolver.ClassInfo>, fails: Write -> bool, t: Tally)
    ensures var r := WriteClasses(cs, fails, t);
            && (r.1 <==> exists w :: w in ClassesWrites(cs) && fails(w))
            && r.0.seen == t.seen
            && r.0.stats.packages == t.stats.packages && r.0.stats.parseErrors == t.stats.parseErrors
  {
    if cs != [] {
      var c := cs[0];
      var ws := ClassesWrites(cs);
      var mw := MethodWrites(c.fullName, c.methods);
      assert ws == [ClassNode(c.fullName)] + mw + ClassesWrites(cs[1..]);
      if !fails(ClassNode(c.fullName)) {
        var k := MethodsWritten(c.fullName, c.methods, fails);
        var t' := Tally(t.stats.(classes := t.stats.classes + 1, methods := t.stats.methods + k),
                        t.seen, t.classes + [c]);
        MethodsWrittenRaises(c.fullName, c.methods, fails);
        if k == |c.methods| {
          WriteClassesRaises(cs[1..], fails, t');
          forall w | w in ws && fails(w) ensures w in ClassesWrites(cs[1..]) {
            if w in mw { assert false; }
          }
        }
      }
    }
  }

  /** The class loop counts each class it appends, and no more methods than those classes hold;
    * it leaves the seen packages and their counter alone. */
  lemma {:induction false} WriteClassesCounts(cs: seq<CallResolver.ClassInfo>, fails: Write -> bool, t: Tally)
    ensures var r := WriteClasses(cs, fails, t);
            && r.0.seen == t.seen && r.0.stats.packages == t.stats.packages
            && r.0.stats.classes + |t.classes| == t.stats.classes + |r.0.classes|
            && r.0.stats.methods + MethodTotal(t.classes) <= t.stats.methods + MethodTotal(r.0.classes)
  {
    if cs != [] && !fails(ClassNode(cs[0].fullName)) {
      var c := cs[0];
      var k := MethodsWritten(c.fullName, c.methods, fails);
      var t' := Tally(t.stats.(classes := t.stats.classes + 1, methods := t.stats.methods + k),
                      t.seen, t.classes + [c]);
      MethodTotalAppend(t.classes, [c]);
      assert MethodTotal([c]) == |c.methods| by {
        assert [c][..0] == [];
      }
      if k == |c.methods| {
        WriteClassesCounts(cs[1..], fails, t');
      }
    }
  }

  /** A file's iteration adds one parse error exactly when the file raises. */
  lemma FileStepRaises(f: FileOutcome, fails: Write -> bool, t: Tally)
    ensures FileStep(f, fails, t).stats.parseErrors
         == t.stats.parseErrors + (if FileRaises(f, fails, t.seen) then 1 else 0)
  {
    if f.Parsed? && f.classes != [] {
      var pkg, cs := f.pkg, f.classes;
      var ws := FileWrites(f, t.seen);
      if pkg != "" && pkg !in t.seen {
        var t1 := t.(seen := t.seen + {pkg});
        WriteClassesRaises(cs, fails, t1.(stats := t1.stats.(packages := t1.stats.packages + 1)));
        assert ws == [PackageNode(pkg)] + ClassesWrites(cs);
        if !fails(PackageNode(pkg)) {
          forall w | w in ws && fails(w) ensures w in ClassesWrites(cs) { }
        }
      } else {
        WriteClassesRaises(cs, fails, t);
        assert ws == [] + ClassesWrites(cs);
      }
    }
  }

  /** A file's iteration counts each class it appends, no more methods than those classes hold
    * and no more packages than it adds to the seen ones. */
  lemma FileStepCounts(f: FileOutcome, fails: Write -> bool, t: Tally)
    ensures var t' := FileStep(f, fails, t);
            && t'.stats.classes + |t.classes| == t.stats.classes + |t'.classes|
            && t'.stats.methods + MethodTotal(t.classes) <= t.stats.methods + MethodTotal(t'.classes)
            && t'.stats.packages + |t.seen| <= t.stats.packages + |t'.seen|
            && t.seen <= t'.seen
  {
    match f
    case Failed =>
    case NoTypes =>
    case Parsed(pkg, cs) =>
      if cs != [] {
        if pkg != "" && pkg !in t.seen {
          var t1 := t.(seen := t.seen + {pkg});
          if !fails(PackageNode(pkg)) {
            var t2 := t1.(stats := t1.stats.(packages := t1.stats.packages + 1));
            WriteClassesCounts(cs, fails, t2);
            assert FileStep(f, fails, t) == AfterClasses(WriteClasses(cs, fails, t2));
          }
        } else {
          WriteClassesCounts(cs, fails, t);
          assert FileStep(f, fails, t) == AfterClasses(WriteClasses(cs, fails, t));
        }
      }
  }

  /** With no raising write, a file adds its package once, all its classes and all their methods. */
  lemma {:induction false} WriteClassesNoFailures(cs: seq<CallResolver.ClassInfo>, fails: Write -> bool, t: Tally)
    requires forall w :: !fails(w)
    ensures WriteClasses(cs, fails, t)
         == (Tally(t.stats.(classes := t.stats.classes + |cs|, methods := t.stats.methods + MethodTotal(cs)),
                   t.seen, t.classes + cs), false)
  {
    if cs == [] {
      assert t.classes + cs == t.classes;
    } else {
      var c := cs[0];
      var k := MethodsWritten(c.fullName, c.methods, fails);
      var t' := Tally(t.stats.(classes := t.stats.classes + 1, methods := t.stats.methods + k),
                      t.seen, t.classes + [c]);
      WriteClassesNoFailures(cs[1..], fails, t');
      MethodTotalAppend([c], cs[1..]);
      assert [c] + cs[1..] == cs;
      assert MethodTotal([c]) == |c.methods| by {
        assert [c][..0] == [];
      }
      assert t.classes + [c] + cs[1..] == t.classes + cs;
    }
  }

  /** One iteration of the file loop: a raising parse adds a parse error; a file with types
    * writes its package when it is new and non-empty, then each class and its methods, and a
    * raising write ends the file with one more parse error, keeping what was counted before
    * it; a file without types adds nothing. */
  method CountFile(f: FileOutcome, fails: Write -> bool, t: Tally) returns (t': Tally)
    ensures t' == FileStep(f, fails, t)
  {
    t' := t;
    match f
    case Failed =>
      t' := Raised(t);
    case NoTypes =>
    case Parsed(pkg, cs) =>
      if cs == [] {
        return;
      }
      if pkg != "" && pkg !in t.seen {
        t' := t'.(seen := t'.seen + {pkg});
        if fails(PackageNode(pkg)) {
          t' := Raised(t');
          return;
        }
        t' := t'.(stats := t'.stats.(packages := t'.stats.packages + 1));
      }
      ghost var start := t';
      for i := 0 to |cs|
        invariant WriteClasses(cs, fails, start) == WriteClasses(cs[i..], fails, t')
      {
        var c := cs[i];
        if fails(ClassNode(c.fullName)) {
          t' := Raised(t');
          return;
        }
        ghost var before := t';
        t' := t'.(stats := t'.stats.(classes := t'.stats.classes + 1), classes := t'.classes + [c]);
        for j := 0 to |c.methods|
          invariant t' == before.(stats := before.stats.(classes := before.stats.classes + 1,
                                                          methods := before.stats.methods + j),
                                  classes := before.classes + [c])
          invariant forall m :: 0 <= m < j ==> !fails(MethodNode(c.fullName, c.methods[m].name))
        {
          if fails(MethodNode(c.fullName, c.methods[j].name)) {
            t' := Raised(t');
            return;
          }
          t' := t'.(stats := t'.stats.(methods := t'.stats.methods + 1));
        }
        assert cs[i..][1..] == cs[i + 1..];
      }
  }

  // ---------------------------------------------------------------------------------------
  // The run
  // ---------------------------------------------------------------------------------------

  /** The tally after the file loop over `files`. */
  function RunFiles(files: seq<FileOutcome>, fails: Write -> bool): Tally {
    if files == [] then Tally(RunStats(0, 0, 0, 0), {}, [])
    else FileStep(files[|files| - 1], fails, RunFiles(files[..|files| - 1], fails))
  }

  /** The `i`th file's iteration raised, given the packages the files before it left seen. */
  predicate RaisesAt(files: seq<FileOutcome>, fails: Write -> bool, i: nat)
    requires i < |files|
  {
    FileRaises(files[i], fails, RunFiles(files[..i], fails).seen)
  }

  /** The files whose iteration raised, by index. */
  function RaisingFiles(files: seq<FileOutcome>, fails: Write -> bool): set<nat> {
    set i: nat | i < |files| && RaisesAt(files, fails, i)
  }

  /** Appending a file leaves whether the earlier ones raised unchanged. */
  lemma RaisesAtPrefix(files: seq<FileOutcome>, fails: Write -> bool, i: nat)
    requires i < |files| - 1
    ensures RaisesAt(files, fails, i) == RaisesAt(files[..|files| - 1], fails, i)
  {
    assert files[..|files| - 1][..i] == files[..i];
  }

  /** A file appended to the run raises or not by the tally of the files before it. */
  lemma RaisingFilesSnoc(files: seq<FileOutcome>, fails: Write -> bool)
    requires files != []
    ensures var n := |files| - 1;
            RaisingFiles(files, fails)
            == RaisingFiles(files[..n], fails) + (if RaisesAt(files, fails, n) then {n} else {})
  {
    var n := |files| - 1;
    forall i: nat | i < n ensures RaisesAt(files, fails, i) == RaisesAt(files[..n], fails, i) {
      RaisesAtPrefix(files, fails, i);
    }
  }

  /** The parse-error counter is the number of files whose iteration raised: no fewer than the
    * raising parses and no more than the files. Every counted class is among those handed to
    * the resolver, and no more methods and packages are counted than those classes and the
    * seen packages hold. */
  lemma {:induction false} RunShape(files: seq<FileOutcome>, fails: Write -> bool)
    ensures var t := RunFiles(files, fails);
            && t.stats.parseErrors == |RaisingFiles(files, fails)|
            && ParseErrors(files) <= t.stats.parseErrors <= |files|
            && t.stats.classes == |t.classes|
            && t.stats.methods <= MethodTotal(t.classes)
            && t.stats.packages <= |t.seen|
  {
    if files != [] {
      var n := |files| - 1;
      var init := files[..n];
      RunShape(init, fails);
      FileStepRaises(files[n], fails, RunFiles(init, fails));
      FileStepCounts(files[n], fails, RunFiles(init, fails));
      RaisingFilesSnoc(files, fails);
      assert n !in RaisingFiles(init, fails);
    }
  }

  /** With no raising write a file adds its package when new, and all its classes and methods. */
  lemma FileStepNoFailures(f: FileOutcome, fails: Write -> bool, t: Tally)
    requires forall w :: !fails(w)
    ensures var t' := FileStep(f, fails, t);
            var cs := if f.Parsed? then f.classes else [];
            && t'.seen == t.seen + (if f.Parsed? && cs != [] && f.pkg != "" then {f.pkg} else {})
            && t'.classes == t.classes + cs
            && t'.stats.classes == t.stats.classes + |cs|
            && t'.stats.methods == t.stats.methods + MethodTotal(cs)
            && t'.stats.parseErrors == t.stats.parseErrors + (if f.Failed? then 1 else 0)
            && t'.stats.packages + |t.seen| == t.stats.packages + |t'.seen|
  {
    match f
    case Failed =>
      assert t.classes + [] == t.classes;
    case NoTypes =>
      assert t.classes + [] == t.classes;
    case Parsed(pkg, cs) =>
      if cs == [] {
        assert t.classes + cs == t.classes;
      } else if pkg != "" && pkg !in t.seen {
        var t1 := t.(seen := t.seen + {pkg});
        WriteClassesNoFailures(cs, fails, t1.(stats := t1.stats.(packages := t1.stats.packages + 1)));
      } else {
        WriteClassesNoFailures(cs, fails, t);
        assert pkg != "" ==> t.seen + {pkg} == t.seen;
      }
  }

  /** With no raising write the loop counts the distinct non-empty packages of files with types,
    * all their classes and methods, and the raising parses. */
  lemma {:induction false} RunNoFailures(files: seq<FileOutcome>, fails: Write -> bool)
    requires forall w :: !fails(w)
    ensures RunFiles(files, fails)
         == Tally(RunStats(|PackagesOf(files)|, |AllClasses(files)|, MethodTotal(AllClasses(files)), ParseErrors(files)),
                  PackagesOf(files), AllClasses(files))
  {
    if files != [] {
      var init := files[..|files| - 1];
      var f := files[|files| - 1];
      RunNoFailures(init, fails);
      FileStepNoFailures(f, fails, RunFiles(init, fails));
      MethodTotalAppend(AllClasses(init), if f.Parsed? then f.classes else []);
    }
  }

  /** `run` after the directory walk: the file loop, the call resolver over the classes the loop
    * kept, and the summary. The summary mentions parse errors exactly when some file's
    * iteration raised; with no raising write the counts are the distinct non-empty packages,
    * the classes and methods of the files with types, and the raising parses. */
  method Run(files: seq<FileOutcome>, fails: Write -> bool)
    returns (stats: RunStats, summary: string, edges: seq<CallResolver.CallEdge>, stubs: seq<CallResolver.Stub>)
    ensures stats == RunFiles(files, fails).stats
    ensures summary == Summary(stats, |edges|)
    ensures EndsWith(summary, " parse errors") <==> RaisingFiles(files, fails) != {}
    ensures ParseErrors(files) <= stats.parseErrors <= |files|
    ensures stats.classes == |RunFiles(files, fails).classes|
    ensures (forall w :: !fails(w)) ==>
              stats == RunStats(|PackagesOf(files)|, |AllClasses(files)|, MethodTotal(AllClasses(files)), ParseErrors(files))
    ensures (forall w :: !fails(w)) ==> RunFiles(files, fails).classes == AllClasses(files)
    ensures var cs := RunFiles(files, fails).classes;
            forall e :: e in edges ==>
              CallResolver.Site(e.caller, Some(e.target), e.meth) in CallResolver.CallSites(cs)
              && e.target in CallResolver.ClassMethodsOf(cs)
    ensures var cs := RunFiles(files, fails).classes;
            forall s :: s in stubs ==> exists x :: x in CallResolver.CallSites(cs) && x.target == Some(s.cls) && x.name == s.meth
    ensures var cs := RunFiles(files, fails).classes;
            forall x :: x in CallResolver.CallSites(cs) && x.target.Some? && x.target.value != ""
                        && x.target.value in CallResolver.ClassMethodsOf(cs) ==>
              exists o :: CallResolver.Attributed(cs, edges, stubs, x, o)
  {
    var t := Tally(RunStats(0, 0, 0, 0), {}, []);
    for i := 0 to |files|
      invariant t == RunFiles(files[..i], fails)
    {
      assert files[..i + 1][..i] == files[..i];
      t := CountFile(files[i], fails, t);
    }
    assert files[..|files|] == files;
    stats := t.stats;
    var count;
    count, edges, stubs := CallResolver.CreateCallsRelationships(t.classes);
    summary := Summary(stats, count);
    SummaryMentionsErrors(stats, count);
    RunShape(files, fails);
    if forall w :: !fails(w) {
      RunNoFailures(files, fails);
    }
  }
}
