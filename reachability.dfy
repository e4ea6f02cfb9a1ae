/** Paths and reachability along a successor function; shared by the hierarchy search of the
  * call resolver and by the mixin cycle check of the context store. */
module Reachability {

  /** Each element of `p` is a successor of the element before it. */
  ghost predicate IsPath<T>(succ: T -> seq<T>, p: seq<T>) {
    forall i :: 0 <= i < |p| - 1 ==> p[i + 1] in succ(p[i])
  }

  /** `b` can be reached from `a` in zero or more steps. */
  ghost predicate Reachable<T(!new)>(succ: T -> seq<T>, a: T, b: T) {
    exists p: seq<T> :: |p| >= 1 && p[0] == a && p[|p| - 1] == b && IsPath(succ, p)
  }

  /** Every successor of a member of `v` is in `v`. */
  ghost predicate Closed<T>(succ: T -> seq<T>, v: set<T>) {
    forall x, y :: x in v && y in succ(x) ==> y in v
  }

  lemma ReachableSelf<T(!new)>(succ: T -> seq<T>, a: T)
    ensures Reachable(succ, a, a)
  {
    assert IsPath(succ, [a]);
  }

  lemma ReachableStep<T(!new)>(succ: T -> seq<T>, a: T, b: T, c: T)
    requires Reachable(succ, a, b) && c in succ(b)
    ensures Reachable(succ, a, c)
  {
    var p: seq<T> :| |p| >= 1 && p[0] == a && p[|p| - 1] == b && IsPath(succ, p);
    var q := p + [c];
    assert IsPath(succ, q) by {
      forall i | 0 <= i < |q| - 1 ensures q[i + 1] in succ(q[i]) {
        if i < |p| - 1 { assert q[i] == p[i] && q[i + 1] == p[i + 1]; }
      }
    }
    assert q[0] == a && q[|q| - 1] == c;
  }

  /** A path that starts in a closed set stays inside it. */
  lemma {:induction false} PathStaysInClosed<T>(succ: T -> seq<T>, v: set<T>, p: seq<T>)
    requires Closed(succ, v) && IsPath(succ, p) && |p| >= 1 && p[0] in v
    ensures p[|p| - 1] in v
  {
    if |p| > 1 {
      var q := p[..|p| - 1];
      assert IsPath(succ, q) by {
        forall i | 0 <= i < |q| - 1 ensures q[i + 1] in succ(q[i]) {
          assert q[i] == p[i] && q[i + 1] == p[i + 1];
        }
      }
      PathStaysInClosed(succ, v, q);
      assert p[|p| - 1] in succ(p[|p| - 2]);
    }
  }

  /** Everything reachable from a member of a closed set belongs to that set. */
  lemma ClosedContainsReachable<T(!new)>(succ: T -> seq<T>, v: set<T>, a: T, b: T)
    requires Closed(succ, v) && a in v && Reachable(succ, a, b)
    ensures b in v
  {
    var p: seq<T> :| |p| >= 1 && p[0] == a && p[|p| - 1] == b && IsPath(succ, p);
    PathStaysInClosed(succ, v, p);
  }

  /** Reachability composes. */
  lemma ReachableTrans<T(!new)>(succ: T -> seq<T>, a: T, b: T, c: T)
    requires Reachable(succ, a, b) && Reachable(succ, b, c)
    ensures Reachable(succ, a, c)
  {
    var p: seq<T> :| |p| >= 1 && p[0] == a && p[|p| - 1] == b && IsPath(succ, p);
    var q: seq<T> :| |q| >= 1 && q[0] == b && q[|q| - 1] == c && IsPath(succ, q);
    var r := p + q[1..];
    assert IsPath(succ, r) by {
      forall i | 0 <= i < |r| - 1 ensures r[i + 1] in succ(r[i]) {
        if i < |p| - 1 {
          assert r[i] == p[i] && r[i + 1] == p[i + 1];
        } else {
          assert r[i] == q[i - |p| + 1] && r[i + 1] == q[i - |p| + 2];
        }
      }
    }
    assert r[|r| - 1] == c;
  }

  // ---------------------------------------------------------------------------------------
  // A depth-first walk with a stack and a visited set
  // ---------------------------------------------------------------------------------------

  /** Each of `ws` is visited or on the stack. */
  ghost predicate Covered<T>(ws: seq<T>, visited: set<T>, stack: seq<T>) {
    forall w :: w in ws ==> w in visited || w in stack
  }

  /** What a walk from `start` looking for an element satisfying `goal` knows between pops:
    * everything on the stack and visited is reachable from the start, no visited element is a
    * goal, and each visited element's successors are visited or still on the stack. */
  ghost predicate WalkInv<T(!new)>(succ: T -> seq<T>, goal: T -> bool, start: T, visited: set<T>, stack: seq<T>) {
    && (start in visited || start in stack)
    && (forall v :: v in visited ==> !goal(v) && Reachable(succ, start, v))
    && (forall i :: 0 <= i < |stack| ==> Reachable(succ, start, stack[i]))
    && (forall v :: v in visited ==> Covered(succ(v), visited, stack))
  }

  /** Popping an element already visited keeps the invariant. */
  lemma WalkSkip<T(!new)>(succ: T -> seq<T>, goal: T -> bool, start: T, visited: set<T>, stack: seq<T>, current: T)
    requires WalkInv(succ, goal, start, visited, stack + [current])
    requires current in visited
    ensures WalkInv(succ, goal, start, visited, stack)
  {
    forall i | 0 <= i < |stack|
      ensures Reachable(succ, start, stack[i])
    {
      assert stack[i] == (stack + [current])[i];
    }
    forall v | v in visited
      ensures Covered(succ(v), visited, stack)
    {
      assert Covered(succ(v), visited, stack + [current]);
    }
  }

  /** Expanding an element that is not a goal, visiting it and pushing its successors, keeps
    * the invariant. */
  lemma WalkStep<T(!new)>(succ: T -> seq<T>, goal: T -> bool, start: T, visited: set<T>, stack: seq<T>, current: T)
    requires WalkInv(succ, goal, start, visited, stack + [current])
    requires !goal(current)
    ensures WalkInv(succ, goal, start, visited + {current}, stack + succ(current))
  {
    var stack' := stack + succ(current);
    var visited' := visited + {current};
    assert (stack + [current])[|stack|] == current;
    forall i | 0 <= i < |stack'|
      ensures Reachable(succ, start, stack'[i])
    {
      if i < |stack| {
        assert stack'[i] == (stack + [current])[i];
      } else {
        assert stack'[i] in succ(current);
        ReachableStep(succ, start, current, stack'[i]);
      }
    }
    forall v | v in visited'
      ensures Covered(succ(v), visited', stack')
    {
      if v in visited {
        assert Covered(succ(v), visited, stack + [current]);
      }
    }
  }

  /** With the stack empty the visited set is closed and holds the start, so it holds
    * everything reachable from the start, and no goal is reachable. */
  lemma WalkDone<T(!new)>(succ: T -> seq<T>, goal: T -> bool, start: T, visited: set<T>)
    requires WalkInv(succ, goal, start, visited, [])
    ensures forall x :: goal(x) ==> !Reachable(succ, start, x)
  {
    forall v, w | v in visited && w in succ(v)
      ensures w in visited
    {
      assert Covered(succ(v), visited, []);
    }
    forall x | goal(x) && Reachable(succ, start, x)
      ensures false
    {
      ClosedContainsReachable(succ, visited, start, x);
    }
  }

  // ---------------------------------------------------------------------------------------
  // Adding steps to an acyclic graph
  // ---------------------------------------------------------------------------------------

  /** No element is reachable from one of its own successors. */
  ghost predicate Acyclic<T(!new)>(succ: T -> seq<T>) {
    forall p, q :: q in succ(p) ==> !Reachable(succ, q, p)
  }

  /** `succ'` has the steps of `succ` and, at most, steps from elements satisfying `src` to
    * `id`. */
  ghost predicate AddsStepsTo<T(!new)>(succ: T -> seq<T>, succ': T -> seq<T>, src: T -> bool, id: T) {
    forall p, x :: x in succ'(p) ==> x in succ(p) || (src(p) && x == id)
  }

  /** A `succ'` path is a `succ` path, or its first new step leaves a `src` element after a
    * `succ` prefix. */
  lemma {:induction false} FirstNewStep<T(!new)>(succ: T -> seq<T>, succ': T -> seq<T>, src: T -> bool, id: T, w: seq<T>)
    requires AddsStepsTo(succ, succ', src, id) && IsPath(succ', w)
    ensures IsPath(succ, w) || exists j :: 0 <= j < |w| - 1 && src(w[j]) && IsPath(succ, w[..j + 1])
  {
    if |w| > 1 {
      var w0 := w[..|w| - 1];
      assert IsPath(succ', w0) by {
        forall i | 0 <= i < |w0| - 1 ensures w0[i + 1] in succ'(w0[i]) {
          assert w0[i] == w[i] && w0[i + 1] == w[i + 1];
        }
      }
      FirstNewStep(succ, succ', src, id, w0);
      if IsPath(succ, w0) {
        var n := |w| - 2;
        if w[n + 1] in succ(w[n]) {
          forall i | 0 <= i < |w| - 1 ensures w[i + 1] in succ(w[i]) {
            if i < n { assert w0[i] == w[i] && w0[i + 1] == w[i + 1]; }
          }
        } else {
          assert w[..n + 1] == w0;
        }
      } else {
        var j :| 0 <= j < |w0| - 1 && src(w0[j]) && IsPath(succ, w0[..j + 1]);
        assert w[..j + 1] == w0[..j + 1];
      }
    }
  }

  /** A `succ'` path is a `succ` path, or from its last new step, which reaches `id`, it
    * continues as a `succ` path. */
  lemma {:induction false} LastNewStep<T(!new)>(succ: T -> seq<T>, succ': T -> seq<T>, src: T -> bool, id: T, w: seq<T>)
    requires AddsStepsTo(succ, succ', src, id) && IsPath(succ', w)
    ensures IsPath(succ, w) || exists j :: 0 < j < |w| && w[j] == id && IsPath(succ, w[j..])
  {
    if |w| > 1 {
      var w1 := w[1..];
      assert IsPath(succ', w1) by {
        forall i | 0 <= i < |w1| - 1 ensures w1[i + 1] in succ'(w1[i]) {
          assert w1[i] == w[i + 1] && w1[i + 1] == w[i + 2];
        }
      }
      LastNewStep(succ, succ', src, id, w1);
      if IsPath(succ, w1) {
        if w[1] in succ(w[0]) {
          forall i | 0 <= i < |w| - 1 ensures w[i + 1] in succ(w[i]) {
            if i > 0 { assert w1[i - 1] == w[i] && w1[i] == w[i + 1]; }
          }
        } else {
          assert w[1] in succ'(w[0]);
          assert w[1..] == w1;
        }
      } else {
        var j :| 0 < j < |w1| && w1[j] == id && IsPath(succ, w1[j..]);
        assert w[j + 1..] == w1[j..];
      }
    }
  }

  /** A closed `succ'` walk that is not a `succ` walk leads, along `succ` steps, from `id` to a
    * `src` element. */
  lemma NewCycle<T(!new)>(succ: T -> seq<T>, succ': T -> seq<T>, src: T -> bool, id: T, c: seq<T>)
    requires AddsStepsTo(succ, succ', src, id) && IsPath(succ', c) && !IsPath(succ, c)
    requires |c| >= 1 && c[0] == c[|c| - 1]
    ensures exists x :: src(x) && Reachable(succ, id, x)
  {
    FirstNewStep(succ, succ', src, id, c);
    LastNewStep(succ, succ', src, id, c);
    var j0 :| 0 <= j0 < |c| - 1 && src(c[j0]) && IsPath(succ, c[..j0 + 1]);
    var j1 :| 0 < j1 < |c| && c[j1] == id && IsPath(succ, c[j1..]);
    var u := c[..j0 + 1];
    var v := c[j1..];
    assert u[0] == c[0] && u[|u| - 1] == c[j0];
    assert v[0] == id && v[|v| - 1] == c[0];
    PathReaches(succ, u);
    PathReaches(succ, v);
    ReachableTrans(succ, id, c[0], c[j0]);
    assert src(c[j0]);
  }

  /** A path reaches its last element from its first. */
  lemma PathReaches<T(!new)>(succ: T -> seq<T>, p: seq<T>)
    requires |p| >= 1 && IsPath(succ, p)
    ensures Reachable(succ, p[0], p[|p| - 1])
  {
  }

  /** Adding steps from `src` elements to `id` keeps a graph acyclic when no `src` element is
    * reachable from `id`: a new cycle would run from `id` back to a `src` element along old
    * steps. */
  lemma AddStepsKeepAcyclic<T(!new)>(succ: T -> seq<T>, succ': T -> seq<T>, src: T -> bool, id: T)
    requires Acyclic(succ) && AddsStepsTo(succ, succ', src, id)
    requires forall x :: src(x) ==> !Reachable(succ, id, x)
    ensures Acyclic(succ')
  {
    forall p, q | q in succ'(p) && Reachable(succ', q, p)
      ensures false
    {
      var w: seq<T> :| |w| >= 1 && w[0] == q && w[|w| - 1] == p && IsPath(succ', w);
      var c := [p] + w;
      assert IsPath(succ', c) by {
        forall i | 0 <= i < |c| - 1 ensures c[i + 1] in succ'(c[i]) {
          if i > 0 { assert c[i] == w[i - 1] && c[i + 1] == w[i]; }
        }
      }
      if IsPath(succ, c) {
        assert IsPath(succ, w) by {
          forall i | 0 <= i < |w| - 1 ensures w[i + 1] in succ(w[i]) {
            assert c[i + 1] == w[i] && c[i + 2] == w[i + 1];
          }
        }
      } else {
        NewCycle(succ, succ', src, id, c);
      }
    }
  }
}
