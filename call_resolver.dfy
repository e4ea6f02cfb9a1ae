/** The call resolver of the Java extractor (`_find_method_owner` and
  * `_create_calls_relationships` in backend/app/analyzers/java_maven.py): lookup maps over the
  * parsed classes, the receiver priority chain, the breadth-first owner search up a possibly
  * cyclic hierarchy, synthetic stub methods and deduplicated CALLS pairs. The graph writes are
  * the `edges` and `stubs` sequences the resolver returns. */
module CallResolver {
  import opened Wrappers
  import opened Strs
  import opened Reachability
  import JavaExtract

  /** A method call found in a method body: the called name and the receiver text, if any. */
  datatype Invocation = Invocation(name: string, receiver: Option<string>)

  datatype MethodInfo = MethodInfo(name: string, invocations: seq<Invocation>)

  /** The parts of an extracted class record the resolver reads. `fields` maps a field name to
    * its type's simple name. */
  datatype ClassInfo = ClassInfo(
    name: string,
    fullName: string,
    imports: seq<string>,
    staticImports: map<string, string>,
    fields: map<string, string>,
    supertypes: seq<string>,
    methods: seq<MethodInfo>)

  // ---------------------------------------------------------------------------------------
  // Lookup maps
  // ---------------------------------------------------------------------------------------

  function MethodNames(ms: seq<MethodInfo>): set<string> {
    set m | m in ms :: m.name
  }

  /** full name -> method names; a later class with the same full name replaces an earlier one. */
  function ClassMethodsOf(classes: seq<ClassInfo>): map<string, set<string>> {
    if classes == [] then map[]
    else
      var c := classes[|classes| - 1];
      ClassMethodsOf(classes[..|classes| - 1])[c.fullName := MethodNames(c.methods)]
  }

  /** The index of the last class with full name `f`. */
  function LastWithFullName(classes: seq<ClassInfo>, f: string): (r: Option<nat>)
    ensures r.Some? ==> r.value < |classes| && classes[r.value].fullName == f
    ensures r.Some? ==> forall j :: r.value < j < |classes| ==> classes[j].fullName != f
    ensures r.None? ==> forall j :: 0 <= j < |classes| ==> classes[j].fullName != f
  {
    if classes == [] then None
    else if classes[|classes| - 1].fullName == f then Some(|classes| - 1)
    else LastWithFullName(classes[..|classes| - 1], f)
  }

  /** The method-name map has a key for exactly the full names of the classes, holding the
    * method names of the last class of that name. */
  lemma {:induction false} ClassMethodsLastWins(classes: seq<ClassInfo>, f: string)
    ensures f in ClassMethodsOf(classes) <==> LastWithFullName(classes, f).Some?
    ensures f in ClassMethodsOf(classes) ==>
            ClassMethodsOf(classes)[f] == MethodNames(classes[LastWithFullName(classes, f).value].methods)
  {
    if classes != [] {
      var init := classes[..|classes| - 1];
      ClassMethodsLastWins(init, f);
      if classes[|classes| - 1].fullName != f && f in ClassMethodsOf(init) {
        assert classes[LastWithFullName(init, f).value] == init[LastWithFullName(init, f).value];
      }
    }
  }

  method BuildClassMethods(classes: seq<ClassInfo>) returns (cm: map<string, set<string>>)
    ensures cm == ClassMethodsOf(classes)
  {
    cm := map[];
    for i := 0 to |classes|
      invariant cm == ClassMethodsOf(classes[..i])
    {
      assert classes[..i + 1][..i] == classes[..i];
      cm := cm[classes[i].fullName := MethodNames(classes[i].methods)];
    }
    assert classes[..|classes|] == classes;
  }

  /** simple name -> the full names of the classes with that simple name, in list order. */
  function BySimpleOf(classes: seq<ClassInfo>): map<string, seq<string>> {
    if classes == [] then map[]
    else
      var c := classes[|classes| - 1];
      var m := BySimpleOf(classes[..|classes| - 1]);
      m[c.name := (if c.name in m then m[c.name] else []) + [c.fullName]]
  }

  /** A simple name is a key exactly when some class has it, and its list holds exactly the full
    * names of the classes with that simple name. */
  lemma {:induction false} BySimpleMembers(classes: seq<ClassInfo>, n: string, x: string)
    ensures n in BySimpleOf(classes) <==> exists i :: 0 <= i < |classes| && classes[i].name == n
    ensures n in BySimpleOf(classes) ==>
            (x in BySimpleOf(classes)[n] <==>
             exists i :: 0 <= i < |classes| && classes[i].name == n && classes[i].fullName == x)
  {
    if classes != [] {
      var init := classes[..|classes| - 1];
      BySimpleMembers(init, n, x);
      assert forall i :: 0 <= i < |init| ==> init[i] == classes[i];
      var c := classes[|classes| - 1];
      if n in BySimpleOf(classes) && x in BySimpleOf(classes)[n] && c.name == n && x != c.fullName {
        assert x in BySimpleOf(init)[n];
      }
    }
  }

  /** A simple name with exactly one candidate names one class: every class with that simple
    * name has that full name. */
  lemma UniqueCandidate(classes: seq<ClassInfo>, n: string, i: nat)
    requires n in BySimpleOf(classes) && |BySimpleOf(classes)[n]| == 1
    requires i < |classes| && classes[i].name == n
    ensures classes[i].fullName == BySimpleOf(classes)[n][0]
  {
    BySimpleMembers(classes, n, classes[i].fullName);
  }

  method BuildBySimple(classes: seq<ClassInfo>) returns (b: map<string, seq<string>>)
    ensures b == BySimpleOf(classes)
  {
    b := map[];
    for i := 0 to |classes|
      invariant b == BySimpleOf(classes[..i])
    {
      assert classes[..i + 1][..i] == classes[..i];
      var c := classes[i];
      b := b[c.name := (if c.name in b then b[c.name] else []) + [c.fullName]];
    }
    assert classes[..|classes|] == classes;
  }

  /** A type's simple name resolved the way supertypes and field types are: an import with that
    * simple name, else the one class with that simple name; several candidates give nothing. */
  function ResolveTypeName(t: string, importMap: map<string, string>, bySimple: map<string, seq<string>>): (r: Option<string>)
    ensures t in importMap ==> r == Some(importMap[t])
    ensures t !in importMap ==> (r.Some? <==> t in bySimple && |bySimple[t]| == 1)
    ensures r.Some? && t !in importMap ==> r.value in bySimple[t]
  {
    if t in importMap then Some(importMap[t])
    else if t in bySimple && |bySimple[t]| == 1 then Some(bySimple[t][0])
    else None
  }

  /** The resolved supertypes of one class, in declaration order, unresolved ones dropped. */
  function ParentsOf(sts: seq<string>, importMap: map<string, string>, bySimple: map<string, seq<string>>): seq<string> {
    if sts == [] then []
    else
      var rest := ParentsOf(sts[..|sts| - 1], importMap, bySimple);
      match ResolveTypeName(sts[|sts| - 1], importMap, bySimple)
      case None => rest
      case Some(p) => rest + [p]
  }

  lemma {:induction false} ParentsOfMembers(sts: seq<string>, importMap: map<string, string>, bySimple: map<string, seq<string>>, p: string)
    ensures p in ParentsOf(sts, importMap, bySimple) <==>
            exists i :: 0 <= i < |sts| && ResolveTypeName(sts[i], importMap, bySimple) == Some(p)
  {
    if sts != [] {
      var init := sts[..|sts| - 1];
      ParentsOfMembers(init, importMap, bySimple, p);
      assert forall i :: 0 <= i < |init| ==> init[i] == sts[i];
    }
  }

  method BuildParents(sts: seq<string>, importMap: map<string, string>, bySimple: map<string, seq<string>>)
    returns (parents: seq<string>)
    ensures parents == ParentsOf(sts, importMap, bySimple)
  {
    parents := [];
    for i := 0 to |sts|
      invariant parents == ParentsOf(sts[..i], importMap, bySimple)
    {
      assert sts[..i + 1][..i] == sts[..i];
      var r := ResolveTypeName(sts[i], importMap, bySimple);
      if r.Some? {
        parents := parents + [r.value];
      }
    }
    assert sts[..|sts|] == sts;
  }

  /** full name -> resolved parents; a class whose parents resolve to nothing adds no entry. */
  function HierarchyOf(classes: seq<ClassInfo>, bySimple: map<string, seq<string>>): map<string, seq<string>> {
    if classes == [] then map[]
    else
      var c := classes[|classes| - 1];
      var h := HierarchyOf(classes[..|classes| - 1], bySimple);
      var ps := ParentsOf(c.supertypes, JavaExtract.ImportMapOf(c.imports), bySimple);
      if ps != [] then h[c.fullName := ps] else h
  }

  /** Only classes of the input are keys, and every entry is a non-empty parent list. */
  lemma {:induction false} HierarchyShape(classes: seq<ClassInfo>, bySimple: map<string, seq<string>>, f: string)
    ensures f in HierarchyOf(classes, bySimple) ==>
            HierarchyOf(classes, bySimple)[f] != [] && exists i :: 0 <= i < |classes| && classes[i].fullName == f
  {
    if classes != [] {
      var init := classes[..|classes| - 1];
      HierarchyShape(init, bySimple, f);
      assert forall i :: 0 <= i < |init| ==> init[i] == classes[i];
    }
  }

  method BuildHierarchy(classes: seq<ClassInfo>, bySimple: map<string, seq<string>>)
    returns (h: map<string, seq<string>>)
    ensures h == HierarchyOf(classes, bySimple)
  {
    h := map[];
    for i := 0 to |classes|
      invariant h == HierarchyOf(classes[..i], bySimple)
    {
      assert classes[..i + 1][..i] == classes[..i];
      var im := JavaExtract.BuildImportMap(classes[i].imports);
      var ps := BuildParents(classes[i].supertypes, im, bySimple);
      if ps != [] {
        h := h[classes[i].fullName := ps];
      }
    }
    assert classes[..|classes|] == classes;
  }

  /** field name -> the resolved full name of its type; fields whose type does not resolve are
    * absent. */
  function FieldTypeMap(fields: map<string, string>, importMap: map<string, string>, bySimple: map<string, seq<string>>)
    : (r: map<string, string>)
    ensures forall f :: f in r <==> f in fields && ResolveTypeName(fields[f], importMap, bySimple).Some?
    ensures forall f :: f in r ==> r[f] == ResolveTypeName(fields[f], importMap, bySimple).value
  {
    map f | f in fields && ResolveTypeName(fields[f], importMap, bySimple).Some?
      :: ResolveTypeName(fields[f], importMap, bySimple).value
  }

  // ---------------------------------------------------------------------------------------
  // Receiver resolution
  // ---------------------------------------------------------------------------------------

  /** The class an invocation targets, by the fixed priority chain: no receiver or `this` gives
    * the static import of the called name, else the caller's own class; any other receiver is
    * looked up as an imported simple name, then as a class simple name (only a unique one
    * resolves, and an ambiguous one stops the chain), then as a field. */
  function ResolveTarget(inv: Invocation, cls: ClassInfo, importMap: map<string, string>,
                         bySimple: map<string, seq<string>>, fieldMap: map<string, string>): (r: Option<string>)
    ensures (inv.receiver.None? || inv.receiver == Some("this")) ==>
            r == Some(if inv.name in cls.staticImports then cls.staticImports[inv.name] else cls.fullName)
    ensures inv.receiver.Some? && inv.receiver.value != "this" ==>
            var x := inv.receiver.value;
            (x in importMap ==> r == Some(importMap[x])) &&
            (x !in importMap && x in bySimple ==> r == (if |bySimple[x]| == 1 then Some(bySimple[x][0]) else None)) &&
            (x !in importMap && x !in bySimple ==> r == (if x in fieldMap then Some(fieldMap[x]) else None))
  {
    match inv.receiver
    case None => Some(if inv.name in cls.staticImports then cls.staticImports[inv.name] else cls.fullName)
    case Some(x) =>
      if x == "this" then Some(if inv.name in cls.staticImports then cls.staticImports[inv.name] else cls.fullName)
      else if x in importMap then Some(importMap[x])
      else if x in bySimple then (if |bySimple[x]| == 1 then Some(bySimple[x][0]) else None)
      else if x in fieldMap then Some(fieldMap[x])
      else None
  }

  /** A receiver that names several classes is dropped even when a field of that name has a
    * resolvable type. */
  lemma AmbiguousReceiverDropped(inv: Invocation, cls: ClassInfo, classes: seq<ClassInfo>, fieldMap: map<string, string>)
    requires inv.receiver.Some? && inv.receiver.value != "this"
    requires inv.receiver.value !in JavaExtract.ImportMapOf(cls.imports)
    requires exists i, j :: 0 <= i < j < |classes| && classes[i].name == inv.receiver.value
                         && classes[j].name == inv.receiver.value && classes[i].fullName != classes[j].fullName
    ensures ResolveTarget(inv, cls, JavaExtract.ImportMapOf(cls.imports), BySimpleOf(classes), fieldMap).None?
  {
    var x := inv.receiver.value;
    var i, j :| 0 <= i < j < |classes| && classes[i].name == x && classes[j].name == x
                && classes[i].fullName != classes[j].fullName;
    BySimpleMembers(classes, x, classes[i].fullName);
    if |BySimpleOf(classes)[x]| == 1 {
      UniqueCandidate(classes, x, i);
      UniqueCandidate(classes, x, j);
    }
  }

  // ---------------------------------------------------------------------------------------
  // Owner search
  // ---------------------------------------------------------------------------------------

  /** The parents of `c` in the hierarchy map, none when it has no entry. */
  function ParentsIn(h: map<string, seq<string>>): string -> seq<string> {
    c => if c in h then h[c] else []
  }

  /** Every class name that can occur in the search from `target`. */
  function Universe(h: map<string, seq<string>>, target: string): (u: set<string>)
    ensures target in u
    ensures forall c, i :: c in h && 0 <= i < |h[c]| ==> h[c][i] in u
  {
    {target} + set c, i | c in h && 0 <= i < |h[c]| :: h[c][i]
  }

  predicate HasMethod(cm: map<string, set<string>>, c: string, name: string) {
    c in cm && name in cm[c]
  }

  /** What the owner search keeps true: everything seen is a reachable class, the visited ones
    * lack the method, and every parent of a visited class is visited or still queued. */
  ghost predicate SearchInv(succ: string -> seq<string>, u: set<string>, target: string, cm: map<string, set<string>>,
                            name: string, visited: set<string>, queue: seq<string>)
  {
    && visited <= u
    && (forall q :: q in queue ==> q in u)
    && (forall v :: v in visited ==> Reachable(succ, target, v) && !HasMethod(cm, v, name))
    && (forall q :: q in queue ==> Reachable(succ, target, q))
    && (forall v, y :: v in visited && y in succ(v) ==> y in visited || y in queue)
    && (target in visited || target in queue)
  }

  /** Visiting a new class without the method and queueing its parents keeps the invariant. */
  lemma SearchStep(h: map<string, seq<string>>, target: string, cm: map<string, set<string>>, name: string,
                   visited: set<string>, queue: seq<string>)
    requires SearchInv(ParentsIn(h), Universe(h, target), target, cm, name, visited, queue)
    requires queue != [] && queue[0] !in visited && !HasMethod(cm, queue[0], name)
    ensures SearchInv(ParentsIn(h), Universe(h, target), target, cm, name, visited + {queue[0]},
                      queue[1..] + ParentsIn(h)(queue[0]))
    ensures Universe(h, target) - (visited + {queue[0]}) < Universe(h, target) - visited
  {
    var succ := ParentsIn(h);
    var current, rest := queue[0], queue[1..];
    assert queue == [current] + rest;
    var ps := succ(current);
    assert current in [current] + rest;
    forall y | y in ps ensures Reachable(succ, target, y) && y in Universe(h, target) {
      ReachableStep(succ, target, current, y);
    }
    forall q | q in rest ensures q in Universe(h, target) && Reachable(succ, target, q) {
      assert q in [current] + rest;
    }
    forall v, y | v in visited + {current} && y in succ(v)
      ensures y in visited + {current} || y in rest + ps
    {
      if v != current {
        assert y in visited || y in [current] + rest;
      }
    }
    if target !in visited {
      assert target in [current] + rest;
    }
  }

  /** Skipping a class that was already visited keeps the invariant. */
  lemma SearchSkip(succ: string -> seq<string>, u: set<string>, target: string, cm: map<string, set<string>>,
                   name: string, visited: set<string>, queue: seq<string>)
    requires SearchInv(succ, u, target, cm, name, visited, queue)
    requires queue != [] && queue[0] in visited
    ensures SearchInv(succ, u, target, cm, name, visited, queue[1..])
  {
    var current, rest := queue[0], queue[1..];
    assert queue == [current] + rest;
    forall q | q in rest ensures q in u && Reachable(succ, target, q) {
      assert q in [current] + rest;
    }
    forall v, y | v in visited && y in succ(v) ensures y in visited || y in rest {
      assert y in visited || y in [current] + rest;
    }
    if target !in visited {
      assert target in [current] + rest;
    }
  }

  /** When the queue runs dry, no reachable class has the method. */
  lemma SearchDone(succ: string -> seq<string>, u: set<string>, target: string, cm: map<string, set<string>>,
                   name: string, visited: set<string>, c: string)
    requires SearchInv(succ, u, target, cm, name, visited, [])
    requires Reachable(succ, target, c)
    ensures !HasMethod(cm, c, name)
  {
    ClosedContainsReachable(succ, visited, target, c);
  }

  // ---------------------------------------------------------------------------------------
  // Distance up the hierarchy
  // ---------------------------------------------------------------------------------------

  /** The parents of the classes of `b` that have a hierarchy entry. */
  function Up(h: map<string, seq<string>>, b: set<string>): set<string> {
    set p, i | p in b && p in h && 0 <= i < |h[p]| :: h[p][i]
  }

  /** The classes at most `k` steps up the hierarchy from `target`. */
  function Ball(h: map<string, seq<string>>, target: string, k: nat): set<string> {
    if k == 0 then {target} else Ball(h, target, k - 1) + Up(h, Ball(h, target, k - 1))
  }

  lemma {:induction false} BallMono(h: map<string, seq<string>>, target: string, j: nat, k: nat)
    requires j <= k
    ensures Ball(h, target, j) <= Ball(h, target, k)
    decreases k - j
  {
    if j < k {
      BallMono(h, target, j, k - 1);
    }
  }

  /** The parents of a class within `k` steps lie within `k + 1`. */
  lemma ParentsInBall(h: map<string, seq<string>>, target: string, k: nat, c: string)
    requires c in Ball(h, target, k)
    ensures forall y :: y in ParentsIn(h)(c) ==> y in Ball(h, target, k + 1)
  {
    forall y | y in ParentsIn(h)(c) ensures y in Up(h, Ball(h, target, k)) {
      var i :| 0 <= i < |h[c]| && h[c][i] == y;
    }
  }

  lemma {:induction false} BallReachable(h: map<string, seq<string>>, target: string, k: nat, c: string)
    requires c in Ball(h, target, k)
    ensures Reachable(ParentsIn(h), target, c)
  {
    if k == 0 {
      ReachableSelf(ParentsIn(h), target);
    } else if c in Ball(h, target, k - 1) {
      BallReachable(h, target, k - 1, c);
    } else {
      var p, i :| p in Ball(h, target, k - 1) && p in h && 0 <= i < |h[p]| && h[p][i] == c;
      BallReachable(h, target, k - 1, p);
      assert c in ParentsIn(h)(p);
      ReachableStep(ParentsIn(h), target, p, c);
    }
  }

  lemma {:induction false} PathInBall(h: map<string, seq<string>>, target: string, p: seq<string>)
    requires |p| >= 1 && p[0] == target && IsPath(ParentsIn(h), p)
    ensures p[|p| - 1] in Ball(h, target, |p| - 1)
  {
    if |p| > 1 {
      var q := p[..|p| - 1];
      assert IsPath(ParentsIn(h), q) by {
        forall i | 0 <= i < |q| - 1 ensures q[i + 1] in ParentsIn(h)(q[i]) {
          assert q[i] == p[i] && q[i + 1] == p[i + 1];
        }
      }
      PathInBall(h, target, q);
      assert p[|p| - 1] in ParentsIn(h)(q[|q| - 1]);
      ParentsInBall(h, target, |q| - 1, q[|q| - 1]);
    }
  }

  /** A class lies within some number of steps up the hierarchy exactly when it is reachable. */
  lemma BallIffReachable(h: map<string, seq<string>>, target: string, c: string)
    ensures Reachable(ParentsIn(h), target, c) <==> exists k: nat :: c in Ball(h, target, k)
  {
    if Reachable(ParentsIn(h), target, c) {
      var p: seq<string> :| |p| >= 1 && p[0] == target && p[|p| - 1] == c && IsPath(ParentsIn(h), p);
      PathInBall(h, target, p);
    }
    forall k: nat | c in Ball(h, target, k) ensures Reachable(ParentsIn(h), target, c) {
      BallReachable(h, target, k, c);
    }
  }

  /** `c` is as near to `target` as any class that has the method: whenever one of those lies
    * within `k` steps, so does `c`. */
  ghost predicate Nearest(h: map<string, seq<string>>, target: string, cm: map<string, set<string>>,
                          name: string, c: string)
  {
    forall x, k: nat :: x in Ball(h, target, k) && HasMethod(cm, x, name) ==> c in Ball(h, target, k)
  }

  /** The breadth-first levels of the queue: its first `s` classes lie within `lv` steps and the
    * rest within `lv + 1`; every class within `lv` steps is visited or among the first `s`, and
    * every class within fewer steps is visited. */
  ghost predicate LevelInv(h: map<string, seq<string>>, target: string, visited: set<string>,
                           queue: seq<string>, lv: nat, s: nat)
  {
    && s <= |queue|
    && (forall i :: 0 <= i < s ==> queue[i] in Ball(h, target, lv))
    && (forall i :: s <= i < |queue| ==> queue[i] in Ball(h, target, lv + 1))
    && (forall x :: x in Ball(h, target, lv) ==> x in visited || x in queue[..s])
    && (lv > 0 ==> Ball(h, target, lv - 1) <= visited)
  }

  /** The owner search's loop invariant: the search invariant, the levels, and the target
    * still alone in the queue when it has the method. */
  ghost predicate OwnerSearchInv(h: map<string, seq<string>>, target: string, cm: map<string, set<string>>,
                                 name: string, visited: set<string>, queue: seq<string>, lv: nat, s: nat)
  {
    && SearchInv(ParentsIn(h), Universe(h, target), target, cm, name, visited, queue)
    && LevelInv(h, target, visited, queue, lv, s) && (queue != [] ==> 0 < s)
    && (HasMethod(cm, target, name) ==> visited == {} && queue == [target])
  }

  lemma OwnerSearchStart(h: map<string, seq<string>>, target: string, cm: map<string, set<string>>, name: string)
    ensures OwnerSearchInv(h, target, cm, name, {}, [target], 0, 1)
  {
    ReachableSelf(ParentsIn(h), target);
    assert [target][..1] == [target];
  }

  /** Once the current level is used up, the queue holds the next one. */
  lemma LevelNext(h: map<string, seq<string>>, target: string, cm: map<string, set<string>>, name: string,
                  visited: set<string>, queue: seq<string>, lv: nat)
    requires SearchInv(ParentsIn(h), Universe(h, target), target, cm, name, visited, queue)
    requires LevelInv(h, target, visited, queue, lv, 0)
    ensures LevelInv(h, target, visited, queue, lv + 1, |queue|)
  {
    assert queue[..|queue|] == queue;
    forall x | x in Ball(h, target, lv + 1) ensures x in visited || x in queue {
      if x !in Ball(h, target, lv) {
        var p, i :| p in Ball(h, target, lv) && p in h && 0 <= i < |h[p]| && h[p][i] == x;
        assert x in ParentsIn(h)(p);
      }
    }
  }

  /** Popping the head of the current level, and queueing its parents when it is new, keeps
    * the levels. */
  lemma LevelPop(h: map<string, seq<string>>, target: string, visited: set<string>, queue: seq<string>,
                 lv: nat, s: nat, ps: seq<string>)
    requires LevelInv(h, target, visited, queue, lv, s) && 0 < s
    requires ps == (if queue[0] in visited then [] else ParentsIn(h)(queue[0]))
    ensures LevelInv(h, target, visited + {queue[0]}, queue[1..] + ps, lv, s - 1)
  {
    var q' := queue[1..] + ps;
    ParentsInBall(h, target, lv, queue[0]);
    forall i | 0 <= i < s - 1 ensures q'[i] in Ball(h, target, lv) {
      assert q'[i] == queue[i + 1];
    }
    forall i | s - 1 <= i < |q'| ensures q'[i] in Ball(h, target, lv + 1) {
      if i < |queue| - 1 {
        assert q'[i] == queue[i + 1];
      } else {
        assert q'[i] in ps;
      }
    }
    forall x | x in Ball(h, target, lv) ensures x in visited + {queue[0]} || x in q'[..s - 1] {
      if x !in visited && x != queue[0] {
        var i :| 0 <= i < s && queue[..s][i] == x;
        assert q'[..s - 1][i - 1] == x;
      }
    }
  }

  /** A class of the current level that has the method is as near as any class that has it. */
  lemma LevelFound(h: map<string, seq<string>>, target: string, cm: map<string, set<string>>, name: string,
                   visited: set<string>, queue: seq<string>, lv: nat, s: nat)
    requires OwnerSearchInv(h, target, cm, name, visited, queue, lv, s) && queue != []
    ensures Nearest(h, target, cm, name, queue[0])
  {
    forall x, k: nat ensures x in Ball(h, target, k) && HasMethod(cm, x, name) ==> queue[0] in Ball(h, target, k) {
      if k >= lv {
        BallMono(h, target, lv, k);
      } else {
        BallMono(h, target, k, lv - 1);
      }
    }
  }

  /** What one round without a result leaves: the invariant, a visited set that only grows,
    * and progress, either a new visited class or a shorter queue. */
  lemma RoundFacts(h: map<string, seq<string>>, target: string, cm: map<string, set<string>>, name: string,
                   visited: set<string>, queue: seq<string>, visited': set<string>, queue': seq<string>)
    requires SearchInv(ParentsIn(h), Universe(h, target), target, cm, name, visited, queue) && queue != []
    requires queue[0] !in visited ==> !HasMethod(cm, queue[0], name)
    requires visited' == visited + {queue[0]}
    requires queue' == queue[1..] + (if queue[0] in visited then [] else ParentsIn(h)(queue[0]))
    ensures SearchInv(ParentsIn(h), Universe(h, target), target, cm, name, visited', queue')
    ensures visited <= visited'
    ensures (|Universe(h, target) - visited'| < |Universe(h, target) - visited|) ||
            (visited' == visited && |queue'| < |queue|)
  {
    if queue[0] in visited {
      SearchSkip(ParentsIn(h), Universe(h, target), target, cm, name, visited, queue);
      assert visited' == visited && queue' == queue[1..];
    } else {
      SearchStep(h, target, cm, name, visited, queue);
    }
  }

  /** A round without a result keeps the search invariant and the levels, and makes progress. */
  lemma Advance(h: map<string, seq<string>>, target: string, cm: map<string, set<string>>, name: string,
                visited: set<string>, queue: seq<string>, lv: nat, s: nat,
                visited': set<string>, queue': seq<string>)
    returns (lv': nat, s': nat)
    requires OwnerSearchInv(h, target, cm, name, visited, queue, lv, s) && queue != []
    requires !HasMethod(cm, queue[0], name)
    requires visited' == visited + {queue[0]}
    requires queue' == queue[1..] + (if queue[0] in visited then [] else ParentsIn(h)(queue[0]))
    ensures OwnerSearchInv(h, target, cm, name, visited', queue', lv', s')
    ensures (|Universe(h, target) - visited'| < |Universe(h, target) - visited|) ||
            (visited' == visited && |queue'| < |queue|)
  {
    RoundFacts(h, target, cm, name, visited, queue, visited', queue');
    LevelPop(h, target, visited, queue, lv, s, if queue[0] in visited then [] else ParentsIn(h)(queue[0]));
    lv', s' := lv, s - 1;
    if s' == 0 && queue' != [] {
      LevelNext(h, target, cm, name, visited', queue', lv);
      lv', s' := lv + 1, |queue'|;
    }
  }

  lemma SearchExhausted(h: map<string, seq<string>>, target: string, cm: map<string, set<string>>, name: string,
                        visited: set<string>)
    requires SearchInv(ParentsIn(h), Universe(h, target), target, cm, name, visited, [])
    ensures forall c :: Reachable(ParentsIn(h), target, c) ==> !HasMethod(cm, c, name)
  {
    forall c | Reachable(ParentsIn(h), target, c) ensures !HasMethod(cm, c, name) {
      SearchDone(ParentsIn(h), Universe(h, target), target, cm, name, visited, c);
    }
  }

  /** One round of the owner search: pop the head of the queue; skip it if visited, report it
    * if it has the method, otherwise mark it visited and queue its parents. */
  method SearchRound(name: string, target: string, cm: map<string, set<string>>, h: map<string, seq<string>>,
                     visited: set<string>, queue: seq<string>)
    returns (visited': set<string>, queue': seq<string>, found: Option<string>)
    requires SearchInv(ParentsIn(h), Universe(h, target), target, cm, name, visited, queue) && queue != []
    ensures found.Some? ==> found.value == queue[0] && Reachable(ParentsIn(h), target, found.value)
                            && HasMethod(cm, found.value, name)
    ensures found.None? ==> !HasMethod(cm, queue[0], name)
    ensures found.None? ==> visited' == visited + {queue[0]} &&
                            queue' == queue[1..] + (if queue[0] in visited then [] else ParentsIn(h)(queue[0]))
  {
    var current := queue[0];
    if current in visited {
      assert visited + {current} == visited && queue[1..] + [] == queue[1..];
      return visited, queue[1..], None;
    }
    if HasMethod(cm, current, name) {
      assert current in queue;
      return visited, queue, Some(current);
    }
    visited' := visited + {current};
    queue' := queue[1..] + ParentsIn(h)(current);
    found := None;
  }

  /** `_find_method_owner`: a breadth-first search from `target` up the hierarchy, skipping
    * classes already visited, for a class whose method names contain `name`. The target itself
    * is checked first; a result is a reachable class that has the method, and there is no
    * result exactly when no reachable class has it. */
  method FindMethodOwner(name: string, target: string, cm: map<string, set<string>>, h: map<string, seq<string>>)
    returns (r: Option<string>)
    ensures HasMethod(cm, target, name) ==> r == Some(target)
    ensures r.Some? ==> Reachable(ParentsIn(h), target, r.value) && HasMethod(cm, r.value, name)
    ensures r.None? ==> forall c :: Reachable(ParentsIn(h), target, c) ==> !HasMethod(cm, c, name)
    ensures r.Some? ==> Nearest(h, target, cm, name, r.value)
  {
    var visited: set<string> := {};
    var queue := [target];
    ghost var lv: nat, s: nat := 0, 1;
    OwnerSearchStart(h, target, cm, name);
    while queue != []
      invariant OwnerSearchInv(h, target, cm, name, visited, queue, lv, s)
      decreases |Universe(h, target) - visited|, |queue|
    {
      var visited', queue', found := SearchRound(name, target, cm, h, visited, queue);
      if found.Some? {
        LevelFound(h, target, cm, name, visited, queue, lv, s);
        return found;
      }
      lv, s := Advance(h, target, cm, name, visited, queue, lv, s, visited', queue');
      visited, queue := visited', queue';
    }
    SearchExhausted(h, target, cm, name, visited);
    return None;
  }

  // ---------------------------------------------------------------------------------------
  // CALLS pairs and synthetic stubs
  // ---------------------------------------------------------------------------------------

  /** A synthetic method node: `cls` inherits `method` from a class outside the module. */
  datatype Stub = Stub(cls: string, meth: string)

  /** The full name a stub is created under (`class.method`). */
  function StubName(s: Stub): string {
    s.cls + "." + s.meth
  }

  /** A written CALLS relationship. `caller` is the calling method's full name; the callee is
    * `owner.method`, where `owner` was found from the invocation's `target` class. */
  datatype CallEdge = CallEdge(caller: string, target: string, owner: string, meth: string)

  function Callee(e: CallEdge): string {
    e.owner + "." + e.meth
  }

  function Pair(e: CallEdge): (string, string) {
    (e.caller, Callee(e))
  }

  /** The resolver's running state: the method-name map it extends with stubs, the `seen` pairs,
    * the `synthetic_created` names, what it has written, and the count it returns. */
  datatype CallState = CallState(
    cm: map<string, set<string>>,
    seen: set<(string, string)>,
    created: set<string>,
    edges: seq<CallEdge>,
    stubs: seq<Stub>,
    count: nat)

  /** The full names of the methods of `classes` (the callers). */
  function Callers(classes: seq<ClassInfo>): set<string> {
    set c, m | c in classes && m in c.methods :: c.fullName + "." + m.name
  }

  /** The keys of the elements of `xs`. */
  ghost function KeySet<T, K>(xs: seq<T>, key: T -> K): set<K> {
    set x | x in xs :: key(x)
  }

  /** No two elements of `xs` share a key. */
  ghost predicate KeysDistinct<T, K>(xs: seq<T>, key: T -> K) {
    forall i, j :: 0 <= i < j < |xs| ==> key(xs[i]) != key(xs[j])
  }

  /** Appending an element with a new key keeps the keys distinct and adds one key. */
  lemma KeysSnoc<T, K>(xs: seq<T>, key: T -> K, x: T)
    requires KeysDistinct(xs, key) && key(x) !in KeySet(xs, key)
    ensures KeysDistinct(xs + [x], key)
    ensures KeySet(xs + [x], key) == KeySet(xs, key) + {key(x)}
  {
    var ys := xs + [x];
    forall i, j | 0 <= i < j < |ys| ensures key(ys[i]) != key(ys[j]) {
      if j == |xs| {
        assert ys[i] in xs;
      } else {
        assert ys[i] == xs[i] && ys[j] == xs[j];
      }
    }
    assert KeySet(ys, key) == KeySet(xs, key) + {key(x)} by {
      forall y | y in ys ensures y in xs || y == x { }
    }
  }

  /** Every written pair: its caller is a method of the input, it is not a self call, and its
    * owner is a known class reachable from the target that has the method, declared or
    * synthetic. */
  ghost predicate EdgesValid(edges: seq<CallEdge>, callers: set<string>, h: map<string, seq<string>>,
                             cm: map<string, set<string>>, created: set<string>)
  {
    forall e :: e in edges ==>
      e.caller in callers && e.caller != Callee(e) && Reachable(ParentsIn(h), e.target, e.owner)
      && e.owner in cm && (e.meth in cm[e.owner] || Callee(e) in created)
  }

  /** Written pairs: counted, recorded in `seen`, pairwise distinct and valid. */
  ghost predicate EdgesInv(st: CallState, callers: set<string>, h: map<string, seq<string>>) {
    && |st.edges| == st.count
    && |st.seen| == st.count
    && st.seen == KeySet(st.edges, Pair)
    && KeysDistinct(st.edges, Pair)
    && EdgesValid(st.edges, callers, h, st.cm, st.created)
  }

  /** Stubs: one per created name, only for known classes and only for methods the class does
    * not declare. */
  ghost predicate StubsInv(st: CallState, cm0: map<string, set<string>>) {
    && st.created == KeySet(st.stubs, StubName)
    && KeysDistinct(st.stubs, StubName)
    && (forall s :: s in st.stubs ==> s.cls in cm0 && s.meth !in cm0[s.cls])
  }

  /** The stub methods attached to class `k`. */
  function StubMethods(stubs: seq<Stub>, k: string): set<string> {
    set s | s in stubs && s.cls == k :: s.meth
  }

  /** The method-name map changes only by the stubs' names being added to their classes. */
  ghost predicate CmInv(st: CallState, cm0: map<string, set<string>>) {
    && st.cm.Keys == cm0.Keys
    && (forall k :: k in cm0 ==> st.cm[k] == cm0[k] + StubMethods(st.stubs, k))
  }

  ghost predicate CallInv(st: CallState, cm0: map<string, set<string>>, callers: set<string>, h: map<string, seq<string>>) {
    EdgesInv(st, callers, h) && StubsInv(st, cm0) && CmInv(st, cm0)
  }

  lemma StubMethodsSnoc(stubs: seq<Stub>, s: Stub, k: string)
    ensures StubMethods(stubs + [s], k) == StubMethods(stubs, k) + (if s.cls == k then {s.meth} else {})
  {
    var ys := stubs + [s];
    forall y | y in ys ensures y in stubs || y == s { }
  }

  /** Adding a stub for a known class that lacks the method keeps the map invariant. */
  lemma CmAddStub(st: CallState, cm0: map<string, set<string>>, target: string, name: string)
    requires CmInv(st, cm0) && target in st.cm
    ensures CmInv(st.(cm := st.cm[target := st.cm[target] + {name}], stubs := st.stubs + [Stub(target, name)]), cm0)
  {
    forall k | k in cm0 {
      StubMethodsSnoc(st.stubs, Stub(target, name), k);
    }
  }

  /** Adding a stub for a known class that lacks the method keeps the stub and map invariants. */
  lemma AddStub(st: CallState, cm0: map<string, set<string>>, target: string, name: string)
    requires StubsInv(st, cm0) && CmInv(st, cm0)
    requires target in st.cm && name !in st.cm[target] && StubName(Stub(target, name)) !in st.created
    ensures var st' := st.(cm := st.cm[target := st.cm[target] + {name}],
                           created := st.created + {StubName(Stub(target, name))},
                           stubs := st.stubs + [Stub(target, name)]);
            StubsInv(st', cm0) && CmInv(st', cm0)
  {
    KeysSnoc(st.stubs, StubName, Stub(target, name));
    CmAddStub(st, cm0, target, name);
  }

  /** Writing a new non-self pair keeps the edge invariant. */
  lemma AddEdge(st: CallState, callers: set<string>, h: map<string, seq<string>>, e: CallEdge)
    requires EdgesInv(st, callers, h)
    requires e.caller in callers && e.caller != Callee(e) && Pair(e) !in st.seen
    requires Reachable(ParentsIn(h), e.target, e.owner)
    requires e.owner in st.cm && (e.meth in st.cm[e.owner] || Callee(e) in st.created)
    ensures EdgesInv(st.(seen := st.seen + {Pair(e)}, edges := st.edges + [e], count := st.count + 1), callers, h)
  {
    KeysSnoc(st.edges, Pair, e);
    ValidSnoc(st.edges, callers, h, st.cm, st.created, e);
  }

  lemma ValidSnoc(edges: seq<CallEdge>, callers: set<string>, h: map<string, seq<string>>,
                  cm: map<string, set<string>>, created: set<string>, e: CallEdge)
    requires EdgesValid(edges, callers, h, cm, created)
    requires e.caller in callers && e.caller != Callee(e) && Reachable(ParentsIn(h), e.target, e.owner)
    requires e.owner in cm && (e.meth in cm[e.owner] || Callee(e) in created)
    ensures EdgesValid(edges + [e], callers, h, cm, created)
  {
    forall x | x in edges + [e]
      ensures x.caller in callers && x.caller != Callee(x) && Reachable(ParentsIn(h), x.target, x.owner)
              && x.owner in cm && (x.meth in cm[x.owner] || Callee(x) in created)
    {
      if x != e {
        assert x in edges;
      }
    }
  }

  /** Growing the method-name map and the created names keeps every written pair valid. */
  lemma EdgesGrow(st: CallState, callers: set<string>, h: map<string, seq<string>>,
                  cm': map<string, set<string>>, created': set<string>)
    requires EdgesInv(st, callers, h)
    requires st.cm.Keys <= cm'.Keys && (forall k :: k in st.cm ==> st.cm[k] <= cm'[k]) && st.created <= created'
    ensures EdgesInv(st.(cm := cm', created := created'), callers, h)
  {
  }

  /** `st'` extends `st`: the same classes, each with at least its method names, and at least the
    * created names and recorded pairs. */
  ghost predicate Grows(st: CallState, st': CallState) {
    && st'.cm.Keys == st.cm.Keys
    && (forall k :: k in st.cm ==> st.cm[k] <= st'.cm[k])
    && st.created <= st'.created
    && st.seen <= st'.seen
  }

  lemma GrowsTrans(a: CallState, b: CallState, c: CallState)
    requires Grows(a, b) && Grows(b, c)
    ensures Grows(a, c)
  {
  }

  // ---------------------------------------------------------------------------------------
  // Call sites
  // ---------------------------------------------------------------------------------------

  /** An invocation as the loops meet it: the caller's full name, the class its receiver
    * resolves to, if any, and the called name. */
  datatype Site = Site(caller: string, target: Option<string>, name: string)

  function SiteOf(cls: ClassInfo, m: MethodInfo, inv: Invocation, importMap: map<string, string>,
                  fieldMap: map<string, string>, bySimple: map<string, seq<string>>): Site
  {
    Site(cls.fullName + "." + m.name, ResolveTarget(inv, cls, importMap, bySimple, fieldMap), inv.name)
  }

  /** The sites of the invocations `invs` of method `m`, in order. */
  function InvocationSites(cls: ClassInfo, m: MethodInfo, invs: seq<Invocation>, importMap: map<string, string>,
                           fieldMap: map<string, string>, bySimple: map<string, seq<string>>): seq<Site>
  {
    if invs == [] then []
    else InvocationSites(cls, m, invs[..|invs| - 1], importMap, fieldMap, bySimple)
         + [SiteOf(cls, m, invs[|invs| - 1], importMap, fieldMap, bySimple)]
  }

  /** The sites of the invocations of method `m`, in order. */
  function MethodSites(cls: ClassInfo, m: MethodInfo, importMap: map<string, string>,
                       fieldMap: map<string, string>, bySimple: map<string, seq<string>>): seq<Site>
  {
    InvocationSites(cls, m, m.invocations, importMap, fieldMap, bySimple)
  }

  /** The sites of the methods `ms` of `cls`, method by method. */
  function MethodsSites(cls: ClassInfo, ms: seq<MethodInfo>, importMap: map<string, string>,
                        fieldMap: map<string, string>, bySimple: map<string, seq<string>>): seq<Site>
  {
    if ms == [] then []
    else MethodsSites(cls, ms[..|ms| - 1], importMap, fieldMap, bySimple)
         + MethodSites(cls, ms[|ms| - 1], importMap, fieldMap, bySimple)
  }

  /** The sites of one class, resolved with its import map and its field map. */
  function ClassSites(cls: ClassInfo, bySimple: map<string, seq<string>>): seq<Site> {
    var importMap := JavaExtract.ImportMapOf(cls.imports);
    MethodsSites(cls, cls.methods, importMap, FieldTypeMap(cls.fields, importMap, bySimple), bySimple)
  }

  /** The sites of `classes`, class by class. */
  function Sites(classes: seq<ClassInfo>, bySimple: map<string, seq<string>>): seq<Site> {
    if classes == [] then []
    else Sites(classes[..|classes| - 1], bySimple) + ClassSites(classes[|classes| - 1], bySimple)
  }

  /** Every invocation `_create_calls_relationships` meets, in the order it meets them. */
  function CallSites(classes: seq<ClassInfo>): seq<Site> {
    Sites(classes, BySimpleOf(classes))
  }

  /** Site `x` was attributed to `o`: a known class reachable from the target that holds the
    * method (declared, or as a created stub), the target itself whenever the target declares
    * the method, and the pair from the caller to `o.name` is recorded unless it is a self call. */
  ghost predicate Handled(st: CallState, cm0: map<string, set<string>>, h: map<string, seq<string>>, x: Site, o: string)
    requires x.target.Some?
  {
    && Reachable(ParentsIn(h), x.target.value, o)
    && o in st.cm && (x.name in st.cm[o] || o + "." + x.name in st.created)
    && (HasMethod(cm0, x.target.value, x.name) ==> o == x.target.value)
    && (x.caller == o + "." + x.name || (x.caller, o + "." + x.name) in st.seen)
  }

  /** A site whose target is a non-empty known class name has been attributed. */
  ghost predicate Covered(st: CallState, cm0: map<string, set<string>>, h: map<string, seq<string>>, x: Site) {
    x.target.Some? && x.target.value != "" && x.target.value in cm0 ==> exists o :: Handled(st, cm0, h, x, o)
  }

  ghost predicate AllCovered(st: CallState, cm0: map<string, set<string>>, h: map<string, seq<string>>, xs: seq<Site>) {
    forall x :: x in xs ==> Covered(st, cm0, h, x)
  }

  /** Every written pair and every stub comes from one of `sites`: a pair from a site with the
    * pair's caller, target and name, a stub from a site whose target is the stub's class and
    * whose name is the stub's method. */
  ghost predicate FromSites(st: CallState, sites: seq<Site>) {
    && (forall e :: e in st.edges ==> Site(e.caller, Some(e.target), e.meth) in sites)
    && (forall s :: s in st.stubs ==> exists x :: x in sites && x.target == Some(s.cls) && x.name == s.meth)
  }

  lemma FromSitesMore(st: CallState, a: seq<Site>, b: seq<Site>)
    requires FromSites(st, a) && forall x :: x in a ==> x in b
    ensures FromSites(st, b)
  {
  }

  /** A site, once covered, stays covered as the state grows. */
  lemma CoveredGrows(st: CallState, st': CallState, cm0: map<string, set<string>>, h: map<string, seq<string>>,
                     xs: seq<Site>)
    requires Grows(st, st') && AllCovered(st, cm0, h, xs)
    ensures AllCovered(st', cm0, h, xs)
  {
    forall x | x in xs ensures Covered(st', cm0, h, x) {
      if x.target.Some? && x.target.value != "" && x.target.value in cm0 {
        var o :| Handled(st, cm0, h, x, o);
        assert Handled(st', cm0, h, x, o);
      }
    }
  }

  lemma CoveredConcat(st: CallState, cm0: map<string, set<string>>, h: map<string, seq<string>>, a: seq<Site>, b: seq<Site>)
    requires AllCovered(st, cm0, h, a) && AllCovered(st, cm0, h, b)
    ensures AllCovered(st, cm0, h, a + b)
  {
    forall x | x in a + b ensures Covered(st, cm0, h, x) {
      if x !in a { assert x in b; }
    }
  }

  // ---------------------------------------------------------------------------------------
  // CALLS
  // ---------------------------------------------------------------------------------------

  /** The owner an invocation of `name` on `target` is attributed to: the search result `found`
    * when it is a non-empty name, else the target itself when the target is a known class
    * (adding a stub for it unless one of that name exists); no owner otherwise. */
  method AttributeOwner(st: CallState, ghost cm0: map<string, set<string>>, ghost callers: set<string>,
                        h: map<string, seq<string>>, target: string, name: string)
    returns (st': CallState, found: Option<string>, owner: Option<string>)
    requires CallInv(st, cm0, callers, h) && target != ""
    ensures CallInv(st', cm0, callers, h) && Grows(st, st')
    ensures st'.seen == st.seen && st'.edges == st.edges && st'.count == st.count
    ensures HasMethod(st.cm, target, name) ==> found == Some(target)
    ensures found.Some? ==> Reachable(ParentsIn(h), target, found.value) && HasMethod(st.cm, found.value, name)
                            && Nearest(h, target, st.cm, name, found.value)
    ensures found.None? ==> forall c :: Reachable(ParentsIn(h), target, c) ==> !HasMethod(st.cm, c, name)
    ensures owner == (if found.Some? && found.value != "" then found else if target in st.cm then Some(target) else None)
    ensures owner.Some? ==> Reachable(ParentsIn(h), target, owner.value)
    ensures owner.Some? ==> owner.value in st'.cm && (name in st'.cm[owner.value] || owner.value + "." + name in st'.created)
    ensures st'.stubs == st.stubs ||
            (st'.stubs == st.stubs + [Stub(target, name)] && target in st.cm && !HasMethod(st.cm, target, name))
  {
    st' := st;
    found := FindMethodOwner(name, target, st.cm, h);
    owner := if found.Some? && found.value != "" then found else None;
    if owner.None? && target in st.cm {
      owner := Some(target);
      ReachableSelf(ParentsIn(h), target);
      var s := Stub(target, name);
      if StubName(s) !in st.created {
        AddStub(st, cm0, target, name);
        EdgesGrow(st, callers, h, st.cm[target := st.cm[target] + {name}], st.created + {StubName(s)});
        st' := st.(cm := st.cm[target := st.cm[target] + {name}],
                   created := st.created + {StubName(s)},
                   stubs := st.stubs + [s]);
      }
    }
  }

  /** Writes the pair `(caller, owner.name)` unless it is a self call or was written before. */
  method WriteEdge(st: CallState, ghost callers: set<string>, h: map<string, seq<string>>,
                   caller: string, target: string, owner: string, name: string)
    returns (st': CallState)
    requires EdgesInv(st, callers, h) && caller in callers && Reachable(ParentsIn(h), target, owner)
    requires owner in st.cm && (name in st.cm[owner] || owner + "." + name in st.created)
    ensures EdgesInv(st', callers, h) && Grows(st, st')
    ensures st'.cm == st.cm && st'.created == st.created && st'.stubs == st.stubs
    ensures st'.seen == st.seen + (if caller != owner + "." + name then {(caller, owner + "." + name)} else {})
    ensures st'.edges == st.edges || st'.edges == st.edges + [CallEdge(caller, target, owner, name)]
  {
    st' := st;
    var e := CallEdge(caller, target, owner, name);
    assert Pair(e) == (caller, owner + "." + name);
    if caller != Callee(e) && Pair(e) !in st.seen {
      AddEdge(st, callers, h, e);
      st' := st.(seen := st.seen + {Pair(e)}, edges := st.edges + [e], count := st.count + 1);
    }
  }

  /** A new pair or stub made for site `x` comes from the sites when `x` is one of them. */
  lemma FromSitesStep(st: CallState, st': CallState, sites: seq<Site>, x: Site, o: string)
    requires FromSites(st, sites) && x in sites && x.target.Some?
    requires st'.stubs == st.stubs || st'.stubs == st.stubs + [Stub(x.target.value, x.name)]
    requires st'.edges == st.edges || st'.edges == st.edges + [CallEdge(x.caller, x.target.value, o, x.name)]
    ensures FromSites(st', sites)
  {
    forall s | s in st'.stubs ensures exists y :: y in sites && y.target == Some(s.cls) && y.name == s.meth {
      if s !in st.stubs {
        assert x.target == Some(s.cls) && x.name == s.meth;
      }
    }
  }

  /** The loops' invariant from state `st0` on: `st` keeps the resolver invariant and extends
    * `st0`, its pairs and stubs come from the sites `done`, and every one of them is covered. */
  ghost predicate Progress(st0: CallState, st: CallState, cm0: map<string, set<string>>, callers: set<string>,
                           h: map<string, seq<string>>, done: seq<Site>)
  {
    var kept := CallInv(st, cm0, callers, h) && Grows(st0, st);
    var traced := FromSites(st, done) && AllCovered(st, cm0, h, done);
    kept && traced
  }

  /** A step from `st` to `st'` that covers the site `x`, all of whose new pairs and stubs come
    * from `x`, extends the progress made. */
  lemma ProgressStep(st0: CallState, st: CallState, st': CallState, cm0: map<string, set<string>>,
                     callers: set<string>, h: map<string, seq<string>>, done: seq<Site>, x: Site)
    requires Progress(st0, st, cm0, callers, h, done)
    requires CallInv(st', cm0, callers, h) && Grows(st, st') && FromSites(st', done + [x])
    requires Covered(st', cm0, h, x)
    ensures Progress(st0, st', cm0, callers, h, done + [x])
  {
    CoveredGrows(st, st', cm0, h, done);
    CoveredConcat(st', cm0, h, done, [x]);
    GrowsTrans(st0, st, st');
  }

  /** An invocation of `name` on the non-empty target `target` from `caller`: attribute the
    * owner and write the pair. The pair and the stub it may add are the site's own. */
  method HandleSite(caller: string, target: string, name: string, h: map<string, seq<string>>,
                    ghost cm0: map<string, set<string>>, ghost callers: set<string>, st: CallState)
    returns (st': CallState, ghost o: string)
    requires caller in callers && target != ""
    requires CallInv(st, cm0, callers, h)
    ensures CallInv(st', cm0, callers, h) && Grows(st, st')
    ensures Covered(st', cm0, h, Site(caller, Some(target), name))
    ensures st'.stubs == st.stubs || st'.stubs == st.stubs + [Stub(target, name)]
    ensures st'.edges == st.edges || st'.edges == st.edges + [CallEdge(caller, target, o, name)]
  {
    var st1, found, owner := AttributeOwner(st, cm0, callers, h, target, name);
    st', o := st1, "";
    if owner.Some? {
      o := owner.value;
      st' := WriteEdge(st1, callers, h, caller, target, owner.value, name);
      assert Handled(st', cm0, h, Site(caller, Some(target), name), o);
    }
    GrowsTrans(st, st1, st');
  }

  /** One invocation of method `m` of `cls`: resolve its target, skip it without one, else
    * handle it. */
  method ProcessInvocation(cls: ClassInfo, m: MethodInfo, inv: Invocation, importMap: map<string, string>,
                           fieldMap: map<string, string>, bySimple: map<string, seq<string>>,
                           h: map<string, seq<string>>, ghost cm0: map<string, set<string>>,
                           ghost callers: set<string>, ghost st0: CallState, ghost done: seq<Site>, st: CallState)
    returns (st': CallState)
    requires cls.fullName + "." + m.name in callers
    requires Progress(st0, st, cm0, callers, h, done)
    ensures Progress(st0, st', cm0, callers, h, done + [SiteOf(cls, m, inv, importMap, fieldMap, bySimple)])
  {
    var caller := cls.fullName + "." + m.name;
    var target := ResolveTarget(inv, cls, importMap, bySimple, fieldMap);
    ghost var x := SiteOf(cls, m, inv, importMap, fieldMap, bySimple);
    FromSitesMore(st, done, done + [x]);
    st' := st;
    if target.Some? && target.value != "" {
      ghost var o;
      st', o := HandleSite(caller, target.value, inv.name, h, cm0, callers, st);
      FromSitesStep(st, st', done + [x], x, o);
    }
    ProgressStep(st0, st, st', cm0, callers, h, done, x);
  }

  lemma InvocationSitesSnoc(cls: ClassInfo, m: MethodInfo, j: nat, importMap: map<string, string>,
                            fieldMap: map<string, string>, bySimple: map<string, seq<string>>)
    requires j < |m.invocations|
    ensures InvocationSites(cls, m, m.invocations[..j + 1], importMap, fieldMap, bySimple)
         == InvocationSites(cls, m, m.invocations[..j], importMap, fieldMap, bySimple)
            + [SiteOf(cls, m, m.invocations[j], importMap, fieldMap, bySimple)]
  {
    assert m.invocations[..j + 1][..j] == m.invocations[..j];
  }

  lemma MethodsSitesSnoc(cls: ClassInfo, i: nat, importMap: map<string, string>,
                         fieldMap: map<string, string>, bySimple: map<string, seq<string>>)
    requires i < |cls.methods|
    ensures MethodsSites(cls, cls.methods[..i + 1], importMap, fieldMap, bySimple)
         == MethodsSites(cls, cls.methods[..i], importMap, fieldMap, bySimple)
            + MethodSites(cls, cls.methods[i], importMap, fieldMap, bySimple)
  {
    assert cls.methods[..i + 1][..i] == cls.methods[..i];
  }

  lemma SitesSnoc(classes: seq<ClassInfo>, i: nat, bySimple: map<string, seq<string>>)
    requires i < |classes|
    ensures Sites(classes[..i + 1], bySimple) == Sites(classes[..i], bySimple) + ClassSites(classes[i], bySimple)
  {
    assert classes[..i + 1][..i] == classes[..i];
  }

  /** The invocations of one method of `cls`, in order. */
  method ProcessMethod(cls: ClassInfo, m: MethodInfo, importMap: map<string, string>, fieldMap: map<string, string>,
                       bySimple: map<string, seq<string>>, h: map<string, seq<string>>,
                       ghost cm0: map<string, set<string>>, ghost callers: set<string>,
                       ghost st0: CallState, ghost done: seq<Site>, st: CallState)
    returns (st': CallState)
    requires cls.fullName + "." + m.name in callers
    requires Progress(st0, st, cm0, callers, h, done)
    ensures Progress(st0, st', cm0, callers, h, done + MethodSites(cls, m, importMap, fieldMap, bySimple))
  {
    ghost var sofar := done;
    assert m.invocations[..0] == [] && done + [] == done;
    st' := st;
    for j := 0 to |m.invocations|
      invariant sofar == done + InvocationSites(cls, m, m.invocations[..j], importMap, fieldMap, bySimple)
      invariant Progress(st0, st', cm0, callers, h, sofar)
    {
      st' := ProcessInvocation(cls, m, m.invocations[j], importMap, fieldMap, bySimple, h, cm0, callers,
                               st0, sofar, st');
      InvocationSitesSnoc(cls, m, j, importMap, fieldMap, bySimple);
      sofar := sofar + [SiteOf(cls, m, m.invocations[j], importMap, fieldMap, bySimple)];
    }
    assert m.invocations[..|m.invocations|] == m.invocations;
  }

  /** One class of the outer loop: its import map and field map, then each of its methods. */
  method ProcessClass(cls: ClassInfo, ghost classes: seq<ClassInfo>, bySimple: map<string, seq<string>>,
                      h: map<string, seq<string>>, ghost cm0: map<string, set<string>>, ghost st0: CallState,
                      ghost done: seq<Site>, st: CallState)
    returns (st': CallState)
    requires cls in classes
    requires Progress(st0, st, cm0, Callers(classes), h, done)
    ensures Progress(st0, st', cm0, Callers(classes), h, done + ClassSites(cls, bySimple))
  {
    var importMap := JavaExtract.BuildImportMap(cls.imports);
    var fieldMap := FieldTypeMap(cls.fields, importMap, bySimple);
    ghost var sofar := done;
    assert cls.methods[..0] == [] && done + [] == done;
    st' := st;
    for i := 0 to |cls.methods|
      invariant sofar == done + MethodsSites(cls, cls.methods[..i], importMap, fieldMap, bySimple)
      invariant Progress(st0, st', cm0, Callers(classes), h, sofar)
    {
      assert cls.methods[i] in cls.methods;
      st' := ProcessMethod(cls, cls.methods[i], importMap, fieldMap, bySimple, h, cm0, Callers(classes),
                           st0, sofar, st');
      MethodsSitesSnoc(cls, i, importMap, fieldMap, bySimple);
      sofar := sofar + MethodSites(cls, cls.methods[i], importMap, fieldMap, bySimple);
    }
    assert cls.methods[..|cls.methods|] == cls.methods;
  }

  /** `o` is what site `x` was attributed to in the written output: a known class reachable from
    * the target that declares the method or carries a stub of that name, the target itself
    * whenever the target declares the method, and the pair from the caller to `o.name` is
    * written unless it is a self call. */
  ghost predicate Attributed(classes: seq<ClassInfo>, edges: seq<CallEdge>, stubs: seq<Stub>, x: Site, o: string)
    requires x.target.Some?
  {
    var cm0 := ClassMethodsOf(classes);
    && Reachable(ParentsIn(HierarchyOf(classes, BySimpleOf(classes))), x.target.value, o)
    && o in cm0 && (x.name in cm0[o] || o + "." + x.name in KeySet(stubs, StubName))
    && (HasMethod(cm0, x.target.value, x.name) ==> o == x.target.value)
    && (x.caller == o + "." + x.name || (x.caller, o + "." + x.name) in KeySet(edges, Pair))
  }

  /** `_create_calls_relationships`: the CALLS pairs and synthetic stubs written for `classes`,
    * and the count it returns. The count is the number of pairs written, and they are pairwise
    * distinct; no pair is a self call; every caller is a method of the input; every callee is
    * `owner.name` for a known owner class reachable up the hierarchy from the invocation's target
    * that declares the method or carries a stub of that name. Stub names are distinct, and a
    * stub is only made for a known class that does not declare the method. Every pair and every
    * stub comes from an invocation, and every invocation whose target resolves to a known class
    * is attributed to an owner, with its pair written unless it is a self call. */
  method CreateCallsRelationships(classes: seq<ClassInfo>) returns (count: nat, edges: seq<CallEdge>, stubs: seq<Stub>)
    ensures count == |edges| == |KeySet(edges, Pair)|
    ensures forall i, j :: 0 <= i < j < |edges| ==> Pair(edges[i]) != Pair(edges[j])
    ensures forall e :: e in edges ==>
              e.caller in Callers(classes) && e.caller != Callee(e)
              && Reachable(ParentsIn(HierarchyOf(classes, BySimpleOf(classes))), e.target, e.owner)
              && e.owner in ClassMethodsOf(classes)
              && (e.meth in ClassMethodsOf(classes)[e.owner] || Callee(e) in KeySet(stubs, StubName))
    ensures forall i, j :: 0 <= i < j < |stubs| ==> StubName(stubs[i]) != StubName(stubs[j])
    ensures forall s :: s in stubs ==> s.cls in ClassMethodsOf(classes) && s.meth !in ClassMethodsOf(classes)[s.cls]
    ensures forall e :: e in edges ==>
              Site(e.caller, Some(e.target), e.meth) in CallSites(classes) && e.target in ClassMethodsOf(classes)
    ensures forall s :: s in stubs ==> exists x :: x in CallSites(classes) && x.target == Some(s.cls) && x.name == s.meth
    ensures forall x :: x in CallSites(classes) && x.target.Some? && x.target.value != ""
                        && x.target.value in ClassMethodsOf(classes) ==>
              exists o :: Attributed(classes, edges, stubs, x, o)
  {
    var cm := BuildClassMethods(classes);
    var bySimple := BuildBySimple(classes);
    var h := BuildHierarchy(classes, bySimple);
    var st := CallState(cm, {}, {}, [], [], 0);
    InitialCallInv(cm, Callers(classes), h);
    ghost var st0 := st;
    ghost var sofar := [];
    assert classes[..0] == [];
    for i := 0 to |classes|
      invariant sofar == Sites(classes[..i], bySimple)
      invariant Progress(st0, st, cm, Callers(classes), h, sofar)
    {
      st := ProcessClass(classes[i], classes, bySimple, h, cm, st0, sofar, st);
      SitesSnoc(classes, i, bySimple);
      sofar := sofar + ClassSites(classes[i], bySimple);
    }
    assert classes[..|classes|] == classes;
    FinalCallInv(st, cm, Callers(classes), h);
    FinalSources(classes, st);
    FinalCovered(classes, st);
    count, edges, stubs := st.count, st.edges, st.stubs;
  }

  lemma InitialCallInv(cm: map<string, set<string>>, callers: set<string>, h: map<string, seq<string>>)
    ensures CallInv(CallState(cm, {}, {}, [], [], 0), cm, callers, h)
  {
    assert forall k :: k in cm ==> StubMethods([], k) == {};
    assert KeySet([], Pair) == {} && KeySet([], StubName) == {};
  }

  /** What the invariant says at the end, with each stub method read as a created stub. */
  lemma FinalCallInv(st: CallState, cm0: map<string, set<string>>, callers: set<string>, h: map<string, seq<string>>)
    requires CallInv(st, cm0, callers, h)
    ensures st.count == |st.edges| == |KeySet(st.edges, Pair)|
    ensures forall i, j :: 0 <= i < j < |st.edges| ==> Pair(st.edges[i]) != Pair(st.edges[j])
    ensures forall e :: e in st.edges ==>
              e.caller in callers && e.caller != Callee(e) && Reachable(ParentsIn(h), e.target, e.owner)
              && e.owner in cm0 && (e.meth in cm0[e.owner] || Callee(e) in KeySet(st.stubs, StubName))
    ensures forall i, j :: 0 <= i < j < |st.stubs| ==> StubName(st.stubs[i]) != StubName(st.stubs[j])
    ensures forall s :: s in st.stubs ==> s.cls in cm0 && s.meth !in cm0[s.cls]
  {
    forall e | e in st.edges
      ensures e.owner in cm0 && (e.meth in cm0[e.owner] || Callee(e) in KeySet(st.stubs, StubName))
    {
      if e.meth !in cm0[e.owner] && e.meth in st.cm[e.owner] {
        assert e.meth in StubMethods(st.stubs, e.owner);
        var x :| x in st.stubs && x.cls == e.owner && x.meth == e.meth;
        assert StubName(x) == Callee(e);
      }
    }
  }

  /** Every class with a hierarchy entry is a key of the method-name map. */
  lemma HierarchyKeysKnown(classes: seq<ClassInfo>, bySimple: map<string, seq<string>>)
    ensures forall f :: f in HierarchyOf(classes, bySimple) ==> f in ClassMethodsOf(classes)
  {
    forall f | f in HierarchyOf(classes, bySimple) ensures f in ClassMethodsOf(classes) {
      HierarchyShape(classes, bySimple, f);
      ClassMethodsLastWins(classes, f);
    }
  }

  /** From a class without a hierarchy entry only the class itself is reachable. */
  lemma ReachableFromLeaf(h: map<string, seq<string>>, a: string, b: string)
    requires a !in h && Reachable(ParentsIn(h), a, b)
    ensures b == a
  {
    assert Closed(ParentsIn(h), {a}) by {
      assert ParentsIn(h)(a) == [];
    }
    ClosedContainsReachable(ParentsIn(h), {a}, a, b);
  }

  /** At the end, every pair comes from an invocation on a known class, and every stub from an
    * invocation on its class. */
  lemma FinalSources(classes: seq<ClassInfo>, st: CallState)
    requires CallInv(st, ClassMethodsOf(classes), Callers(classes), HierarchyOf(classes, BySimpleOf(classes)))
    requires FromSites(st, CallSites(classes))
    ensures forall e :: e in st.edges ==>
              Site(e.caller, Some(e.target), e.meth) in CallSites(classes) && e.target in ClassMethodsOf(classes)
    ensures forall s :: s in st.stubs ==> exists x :: x in CallSites(classes) && x.target == Some(s.cls) && x.name == s.meth
  {
    var h := HierarchyOf(classes, BySimpleOf(classes));
    HierarchyKeysKnown(classes, BySimpleOf(classes));
    forall e | e in st.edges ensures e.target in ClassMethodsOf(classes) {
      if e.target !in h {
        ReachableFromLeaf(h, e.target, e.owner);
      }
    }
  }

  /** At the end, every invocation on a known class is attributed in the written output. */
  lemma FinalCovered(classes: seq<ClassInfo>, st: CallState)
    requires CallInv(st, ClassMethodsOf(classes), Callers(classes), HierarchyOf(classes, BySimpleOf(classes)))
    requires AllCovered(st, ClassMethodsOf(classes), HierarchyOf(classes, BySimpleOf(classes)), CallSites(classes))
    ensures forall x :: x in CallSites(classes) && x.target.Some? && x.target.value != ""
                        && x.target.value in ClassMethodsOf(classes) ==>
              exists o :: Attributed(classes, st.edges, st.stubs, x, o)
  {
    var cm0 := ClassMethodsOf(classes);
    var h := HierarchyOf(classes, BySimpleOf(classes));
    forall x | x in CallSites(classes) && x.target.Some? && x.target.value != "" && x.target.value in cm0
      ensures exists o :: Attributed(classes, st.edges, st.stubs, x, o)
    {
      assert Covered(st, cm0, h, x);
      var o :| Handled(st, cm0, h, x, o);
      if x.name !in cm0[o] && x.name in st.cm[o] {
        assert x.name in StubMethods(st.stubs, o);
        var s :| s in st.stubs && s.cls == o && s.meth == x.name;
        assert StubName(s) == o + "." + x.name;
      }
      assert Attributed(classes, st.edges, st.stubs, x, o);
    }
  }
}
