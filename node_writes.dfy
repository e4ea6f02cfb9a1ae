/** The loop shared by the single-node enrichers (Spring Data, Spring Scheduled, the REST
  * clients): for each row in turn, the node it yields (if any) is written, a failing write is
  * logged and skipped, and the successful writes are counted. */
module NodeWrites {
  import opened Wrappers

  /** The nodes written, in row order: those of the rows that yield one and whose write, keyed by
    * `key`, does not fail. */
  function Written<R, N>(rows: seq<R>, nodeOf: R -> Option<N>, key: R -> string, failing: set<string>): seq<N> {
    if rows == [] then []
    else
      var last := rows[|rows| - 1];
      Written(rows[..|rows| - 1], nodeOf, key, failing)
        + match nodeOf(last)
          case Some(n) => if key(last) in failing then [] else [n]
          case None => []
  }

  /** A node is written exactly when some row yields it and that row's write does not fail, and
    * never more nodes are written than there are rows. */
  lemma {:induction false} WrittenMembers<R, N>(rows: seq<R>, nodeOf: R -> Option<N>, key: R -> string, failing: set<string>)
    ensures |Written(rows, nodeOf, key, failing)| <= |rows|
    ensures forall n :: n in Written(rows, nodeOf, key, failing) <==>
              exists r :: r in rows && nodeOf(r) == Some(n) && key(r) !in failing
  {
    if rows != [] {
      var init := rows[..|rows| - 1];
      WrittenMembers(init, nodeOf, key, failing);
      assert forall r :: r in rows <==> r in init || r == rows[|rows| - 1];
    }
  }

  /** The rows that yield a node. */
  function NodeRows<R, N>(rows: seq<R>, nodeOf: R -> Option<N>): nat {
    if rows == [] then 0
    else NodeRows(rows[..|rows| - 1], nodeOf) + if nodeOf(rows[|rows| - 1]).Some? then 1 else 0
  }

  /** Without failures one node is written per row that yields one; a failing write only ever
    * loses nodes. */
  lemma {:induction false} WrittenCount<R, N>(rows: seq<R>, nodeOf: R -> Option<N>, key: R -> string, failing: set<string>)
    ensures |Written(rows, nodeOf, key, failing)| <= NodeRows(rows, nodeOf)
    ensures failing == {} ==> |Written(rows, nodeOf, key, failing)| == NodeRows(rows, nodeOf)
  {
    if rows != [] {
      WrittenCount(rows[..|rows| - 1], nodeOf, key, failing);
    }
  }

  /** The loop itself: write each row's node unless its write fails, and count the writes. */
  method WriteAll<R, N>(rows: seq<R>, nodeOf: R -> Option<N>, key: R -> string, failing: set<string>)
    returns (written: seq<N>, count: nat)
    ensures written == Written(rows, nodeOf, key, failing)
    ensures count == |written|
  {
    written := [];
    count := 0;
    for i := 0 to |rows|
      invariant written == Written(rows[..i], nodeOf, key, failing)
      invariant count == |written|
    {
      assert rows[..i + 1][..i] == rows[..i];
      var node := nodeOf(rows[i]);
      if node.Some? && key(rows[i]) !in failing {
        written := written + [node.value];
        count := count + 1;
      }
    }
    assert rows[..|rows|] == rows;
  }
}
