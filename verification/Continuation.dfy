/**
  Which session rows continue which, and the two walks that climb from a row to
  the head of its conversation.
 */
module Continuation {
  import opened Options

  // A timestamp column: missing, numeric, or something float() refuses.
  datatype Stamp = Absent | Number(value: real) | Malformed

  datatype EndReason = Compression | CliClose | OtherEnd

  // `source` is already stripped and lower-cased, "" when missing.
  datatype Row = Row(id: Id, parent: Id, source: string, forked: bool, endReason: EndReason,
                     endedAt: Stamp, startedAt: Stamp, lastActivity: Stamp, messages: int)

  type Rows = map<Id, Row>

  // float(started_at or 0), where it does not raise
  function Started(row: Row): real
  {
    if row.startedAt.Number? then row.startedAt.value else 0.0
  }

  predicate IsContinuation(parent: Row, child: Row)
  {
    if child.forked then false
    else if parent.source != "" && child.source != "" && parent.source != child.source then false
    else if parent.endReason == OtherEnd then false
    else
      match parent.endedAt
      case Absent => true
      case Malformed => false
      case Number(ended) => child.startedAt != Malformed && Started(child) >= ended
  }

  // Row x is the next segment of its (present) parent row.
  predicate Continues(rows: Rows, x: Id)
  {
    && x in rows
    && rows[x].parent != NoId
    && rows[x].parent in rows
    && IsContinuation(rows[rows[x].parent], rows[x])
  }

  // ----- the root of a row -----

  // Climb continuation links, never entering a row twice.
  function Root(rows: Rows, current: Id, seen: set<Id>): Id
    decreases rows.Keys - seen
  {
    if Continues(rows, current) && rows[current].parent !in seen then
      var parent := rows[current].parent;
      Root(rows, parent, seen + {parent})
    else
      current
  }

  /** x lies d segments down from root, root itself being segment 1. */
  predicate At(rows: Rows, root: Id, x: Id, d: nat)
    decreases d
  {
    if d <= 1 then d == 1 && x == root
    else x != root && Continues(rows, x) && At(rows, root, rows[x].parent, d - 1)
  }

  method ContinuationRootId(rows: Rows, sessionId: Id) returns (root: Option<Id>, settled: bool)
    ensures settled  // the walk ends by itself: the |rows| + 1 bound is never what stops it
    ensures root == if sessionId == NoId then None else Some(Root(rows, sessionId, {sessionId}))
  {
    if sessionId == NoId {
      return None, true;
    }
    var rootId, currentId, seen := sessionId, sessionId, {sessionId};
    settled := false;
    var i := 0;
    while i < |rows| + 1 && !settled
      invariant i <= |rows| + 1
      invariant rootId == currentId
      invariant seen <= rows.Keys + {sessionId}
      invariant |seen| == i + 1
      invariant !settled ==> Root(rows, sessionId, {sessionId}) == Root(rows, currentId, seen)
      invariant settled ==> Root(rows, sessionId, {sessionId}) == rootId
      decreases |rows| + 1 - i, !settled
    {
      var parentId := if currentId in rows then rows[currentId].parent else NoId;
      if parentId == NoId || parentId !in rows || !IsContinuation(rows[parentId], rows[currentId]) {
        settled := true;
      } else if parentId in seen {
        settled := true;
      } else {
        rootId := parentId;
        currentId := parentId;
        seen := seen + {currentId};
        i := i + 1;
      }
    }
    SubsetSize(seen, rows.Keys + {sessionId});
    assert |rows.Keys + {sessionId}| <= |rows| + 1;
    root := Some(rootId);
  }

  method ContinuationRootAndDepth(rows: Rows, sid: Id) returns (root: Id, depth: nat)
    ensures root == Root(rows, sid, {sid})
    ensures At(rows, root, sid, depth)
  {
    root, depth := sid, 1;
    var currentId, seen := sid, {sid};
    while true
      invariant root == currentId && currentId in seen && depth >= 1
      invariant Root(rows, sid, {sid}) == Root(rows, currentId, seen)
      invariant forall r, e: nat ::
                  At(rows, r, currentId, e) && r !in seen - {currentId} ==> At(rows, r, sid, e + depth - 1)
      decreases rows.Keys - seen
    {
      var parentId := if currentId in rows then rows[currentId].parent else NoId;
      if parentId == NoId {
        break;
      }
      if parentId !in rows || parentId in seen {
        break;
      }
      if !IsContinuation(rows[parentId], rows[currentId]) {
        break;
      }
      ghost var below, belowSeen := currentId, seen;
      root := parentId;
      currentId := parentId;
      seen := seen + {parentId};
      depth := depth + 1;
      forall r, e: nat | At(rows, r, currentId, e) && r !in seen - {currentId}
        ensures At(rows, r, sid, e + depth - 1)
      {
        assert At(rows, r, below, e + 1);
      }
    }
    assert At(rows, root, currentId, 1);
  }

  lemma {:induction false} SubsetSize<T>(a: set<T>, b: set<T>)
    requires a <= b
    ensures |a| <= |b|
  {
    assert b == a + (b - a);
  }

  /** A row hangs, at some depth, under the root its walk stops at. */
  lemma {:induction false} RootReached(rows: Rows, current: Id, seen: set<Id>) returns (d: nat)
    requires current in seen
    ensures At(rows, Root(rows, current, seen), current, d)
    ensures Root(rows, current, seen) !in seen - {current}
    decreases rows.Keys - seen
  {
    if Continues(rows, current) && rows[current].parent !in seen {
      var parent := rows[current].parent;
      var e := RootReached(rows, parent, seen + {parent});
      d := e + 1;
      assert Root(rows, current, seen) != current;
    } else {
      d := 1;
    }
  }

  /** One row has one depth below one root. */
  lemma {:induction false} DepthUnique(rows: Rows, root: Id, x: Id, d: nat, e: nat)
    requires At(rows, root, x, d) && At(rows, root, x, e)
    ensures d == e
    decreases d
  {
    if d > 1 && e > 1 {
      DepthUnique(rows, root, rows[x].parent, d - 1, e - 1);
    }
  }

  // ----- acyclic links -----

  // The row n continuation links above x.
  function Above(rows: Rows, x: Id, n: nat): Option<Id>
    decreases n
  {
    if n == 0 then Some(x)
    else if Continues(rows, x) then Above(rows, rows[x].parent, n - 1)
    else None
  }

  ghost predicate Acyclic(rows: Rows)
  {
    forall x, n: nat | n > 0 :: Above(rows, x, n) != Some(x)
  }

  lemma {:induction false} AboveThenParent(rows: Rows, x: Id, n: nat, y: Id)
    requires Above(rows, x, n) == Some(y) && Continues(rows, y)
    ensures Above(rows, x, n + 1) == Some(rows[y].parent)
    decreases n
  {
    if n > 0 {
      AboveThenParent(rows, rows[x].parent, n - 1, y);
    } else {
      assert Above(rows, rows[y].parent, 0) == Some(rows[y].parent);
    }
  }

  // Every row entered so far lies below the current one: how both walks leave `seen`.
  ghost predicate AllBelow(rows: Rows, seen: set<Id>, current: Id)
  {
    current in seen && forall s | s in seen :: exists n: nat :: Above(rows, s, n) == Some(current)
  }

  lemma {:induction false} ClimbKeepsBelow(rows: Rows, seen: set<Id>, current: Id)
    requires Acyclic(rows) && Continues(rows, current) && AllBelow(rows, seen, current)
    ensures rows[current].parent !in seen
    ensures AllBelow(rows, seen + {rows[current].parent}, rows[current].parent)
  {
    var parent := rows[current].parent;
    forall s | s in seen
      ensures exists n: nat :: n > 0 && Above(rows, s, n) == Some(parent)
    {
      var n: nat :| Above(rows, s, n) == Some(current);
      AboveThenParent(rows, s, n, current);
    }
    assert Above(rows, parent, 0) == Some(parent);
  }

  /** On acyclic links the walk ends at a row that continues nothing, whatever it saw before. */
  lemma {:induction false} AcyclicRoot(rows: Rows, current: Id, seen: set<Id>, seen': set<Id>)
    requires Acyclic(rows) && AllBelow(rows, seen, current) && AllBelow(rows, seen', current)
    ensures !Continues(rows, Root(rows, current, seen))
    ensures Root(rows, current, seen) == Root(rows, current, seen')
    decreases rows.Keys - seen
  {
    if Continues(rows, current) {
      var parent := rows[current].parent;
      ClimbKeepsBelow(rows, seen, current);
      ClimbKeepsBelow(rows, seen', current);
      AcyclicRoot(rows, parent, seen + {parent}, seen' + {parent});
    }
  }

  lemma {:induction false} SelfBelow(rows: Rows, x: Id)
    ensures AllBelow(rows, {x}, x)
  {
    assert Above(rows, x, 0) == Some(x);
  }

  /** A continuation and the row it continues have the same root. */
  lemma {:induction false} ContinuationSharesRoot(rows: Rows, child: Id)
    requires Acyclic(rows) && Continues(rows, child)
    ensures Root(rows, child, {child}) == Root(rows, rows[child].parent, {rows[child].parent})
  {
    var parent := rows[child].parent;
    SelfBelow(rows, child);
    SelfBelow(rows, parent);
    ClimbKeepsBelow(rows, {child}, child);
    AcyclicRoot(rows, parent, {child} + {parent}, {parent});
  }

  // A row closed by compression or by the CLI ended, on the clock, after it started.
  predicate EndsAfterStart(row: Row)
  {
    row.endReason != OtherEnd ==>
      row.endedAt.Number? && (row.startedAt != Malformed ==> row.endedAt.value > Started(row))
  }

  lemma {:induction false} ClimbingGoesBack(rows: Rows, x: Id, n: nat, y: Id)
    requires forall k | k in rows :: EndsAfterStart(rows[k])
    requires n > 0 && Above(rows, x, n) == Some(y) && y in rows && rows[y].startedAt != Malformed
    ensures x in rows && rows[x].startedAt != Malformed && Started(rows[y]) < Started(rows[x])
    decreases n
  {
    var parent := rows[x].parent;
    if n > 1 {
      ClimbingGoesBack(rows, parent, n - 1, y);
    } else {
      assert Above(rows, parent, 0) == Some(parent);
    }
  }

  /** Rows that end later than they start cannot form a continuation cycle. */
  lemma {:induction false} OrderedTimesAreAcyclic(rows: Rows)
    requires forall k | k in rows :: EndsAfterStart(rows[k])
    ensures Acyclic(rows)
  {
    forall x, n: nat | n > 0
      ensures Above(rows, x, n) != Some(x)
    {
      if Above(rows, x, n) == Some(x) {
        assert Continues(rows, x);
        ClimbingGoesBack(rows, x, n, x);
      }
    }
  }
}
