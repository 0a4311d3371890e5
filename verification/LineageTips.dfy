/**
  The two depth-first searches for the freshest segment of a conversation. They
  visit siblings in different orders; both are proved against one definition of
  "best row of the tree", which does not mention any order.
 */
module LineageTips {
  import opened Options
  import opened Continuation

  // _as_score: the first numeric value, else 0.0
  function AsScore(first: Stamp, second: Stamp): real
  {
    if first.Number? then first.value else if second.Number? then second.value else 0.0
  }

  function Score(row: Row): real
  {
    AsScore(row.lastActivity, row.startedAt)
  }

  // Rows keyed by their own id, none of them keyed by the falsy id.
  ghost predicate WellKeyed(rows: Rows)
  {
    NoId !in rows && forall x | x in rows :: rows[x].id == x
  }

  function Children(children: map<Id, seq<Id>>, x: Id): seq<Id>
  {
    if x in children then children[x] else []
  }

  // `children` lists, in some order, exactly the rows naming each parent.
  ghost predicate ListsChildren(rows: Rows, children: map<Id, seq<Id>>)
  {
    && NoId !in children
    && (forall p, c | c in Children(children, p) :: c in rows && rows[c].parent == p)
    && (forall c | c in rows && rows[c].parent != NoId :: c in Children(children, rows[c].parent))
  }

  ghost predicate InTree(rows: Rows, root: Id, x: Id)
  {
    exists d: nat :: At(rows, root, x, d)
  }

  /** Every row reached from root along continuation links, root included. */
  ghost function Tree(rows: Rows, root: Id): set<Id>
  {
    set x | x in rows && InTree(rows, root, x)
  }

  // Later activity wins; equal activity is settled by depth.
  predicate AtLeast(score: real, depth: nat, score': real, depth': nat)
  {
    score > score' || (score == score' && depth >= depth')
  }

  // Row best, d segments below root, is at least as fresh as every row of the tree satisfying p.
  ghost predicate Freshest(rows: Rows, root: Id, p: Id -> bool, best: Id, d: nat)
  {
    && best in rows
    && At(rows, root, best, d)
    && forall x, e: nat | x in rows && p(x) && At(rows, root, x, e) :: AtLeast(Score(rows[best]), d, Score(rows[x]), e)
  }

  // What compression_tip chooses among. A root without messages starts the
  // running best score at 0, so rows scoring below 0 are then never chosen.
  function Importable(rows: Rows, root: Id): Id -> bool
  {
    x => x in rows && rows[x].messages > 0 &&
         ((root in rows && rows[root].messages > 0) || Score(rows[x]) >= 0.0)
  }

  // ----- the search both methods perform -----

  // The tree as the search meets it: links maps each continuation to the row it
  // continues, depth maps each row of the tree to its depth.
  ghost predicate Surveyed(root: Id, links: map<Id, Id>, depth: map<Id, nat>)
  {
    && root in depth && depth[root] == 1 && (forall c | c in depth :: depth[c] >= 1)
    && (forall c {:trigger Hangs(links, depth, c)} ::
          c != root && (c in depth || (c in links && links[c] in depth)) ==> Hangs(links, depth, c))
  }

  predicate Hangs(links: map<Id, Id>, depth: map<Id, nat>, c: Id)
  {
    c in links && links[c] in depth && c in depth && depth[c] == depth[links[c]] + 1
  }

  // Testing each listed child of p meets exactly the links into p.
  ghost predicate KidsMeetLinks(rows: Rows, kids: seq<Id>, links: map<Id, Id>, p: Id)
    requires p in rows
  {
    && (forall i | 0 <= i < |kids| ::
          var c := kids[i]; c in rows && (IsContinuation(rows[p], rows[c]) <==> c in links && links[c] == p))
    && (forall c | c in links && links[c] == p :: c in kids)
  }

  ghost predicate ChildrenMeetLinks(rows: Rows, children: map<Id, seq<Id>>, links: map<Id, Id>)
  {
    forall p | p in rows :: KidsMeetLinks(rows, Children(children, p), links, p)
  }

  ghost predicate AreLinks(rows: Rows, links: map<Id, Id>)
  {
    && (forall c {:trigger c in links} | c in links :: Continues(rows, c) && links[c] == rows[c].parent)
    && (forall c {:trigger Continues(rows, c)} | Continues(rows, c) :: c in links)
  }

  lemma {:induction false} SurveyLinks(rows: Rows, children: map<Id, seq<Id>>, links: map<Id, Id>)
    requires ListsChildren(rows, children)
    requires AreLinks(rows, links)
    ensures ChildrenMeetLinks(rows, children, links)
  {
    forall p | p in rows
      ensures KidsMeetLinks(rows, Children(children, p), links, p)
    {
      var kids := Children(children, p);
      forall i | 0 <= i < |kids|
        ensures kids[i] in rows && (IsContinuation(rows[p], rows[kids[i]]) <==> kids[i] in links && links[kids[i]] == p)
      {
        assert kids[i] in kids;
        assert IsContinuation(rows[p], rows[kids[i]]) <==> Continues(rows, kids[i]);
      }
    }
  }

  ghost predicate AreDepths(rows: Rows, root: Id, depth: map<Id, nat>)
  {
    && depth.Keys <= rows.Keys
    && forall x, d: nat {:trigger At(rows, root, x, d)} | x in rows ::
         At(rows, root, x, d) <==> x in depth && depth[x] == d
  }

  lemma {:induction false} SurveyDepths(rows: Rows, root: Id, links: map<Id, Id>, depth: map<Id, nat>)
    requires root in rows && AreLinks(rows, links) && AreDepths(rows, root, depth)
    ensures Surveyed(root, links, depth)
  {
    assert At(rows, root, root, 1);
    forall c | c in depth
      ensures depth[c] >= 1
    {
      assert At(rows, root, c, depth[c]);
    }
    forall c | c != root && (c in depth || (c in links && links[c] in depth))
      ensures Hangs(links, depth, c)
    {
      if c in depth {
        assert At(rows, root, c, depth[c]);
        assert At(rows, root, rows[c].parent, depth[c] - 1);
      } else {
        assert At(rows, root, links[c], depth[links[c]]);
        assert At(rows, root, c, depth[links[c]] + 1);
      }
    }
  }

  lemma {:induction false} Survey(rows: Rows, children: map<Id, seq<Id>>, root: Id)
    returns (links: map<Id, Id>, depth: map<Id, nat>)
    requires ListsChildren(rows, children) && root in rows
    ensures Surveyed(root, links, depth) && ChildrenMeetLinks(rows, children, links)
    ensures AreDepths(rows, root, depth) && depth.Keys == Tree(rows, root)
  {
    links := map c | c in rows && Continues(rows, c) :: rows[c].parent;
    depth := map x | x in Tree(rows, root) :: DepthIn(rows, root, x);
    forall x, d: nat | x in rows && At(rows, root, x, d)
      ensures x in depth && depth[x] == d
    {
      assert InTree(rows, root, x);
      DepthUnique(rows, root, x, d, depth[x]);
    }
    SurveyLinks(rows, children, links);
    SurveyDepths(rows, root, links, depth);
  }

  ghost function DepthIn(rows: Rows, root: Id, x: Id): (d: nat)
    requires InTree(rows, root, x)
    ensures At(rows, root, x, d)
  {
    var d: nat :| At(rows, root, x, d); d
  }

  // The rows waiting on the stack, whose top is its last element.
  ghost function Stacked(stack: seq<(Id, nat)>): set<Id>
  {
    if stack == [] then {} else Stacked(stack[..|stack| - 1]) + {stack[|stack| - 1].0}
  }

  // A stacked row is either already visited or stacked with its own depth.
  ghost predicate StackSound(depth: map<Id, nat>, stack: seq<(Id, nat)>, seen: set<Id>)
  {
    forall i | 0 <= i < |stack| :: stack[i].0 in depth && (stack[i].0 in seen || depth[stack[i].0] == stack[i].1)
  }

  // Nothing is missed: the continuations of visited rows are visited or stacked.
  ghost predicate NoneMissed(links: map<Id, Id>, stack: seq<(Id, nat)>, seen: set<Id>)
  {
    forall c | c in links && links[c] in seen :: c in seen + Stacked(stack)
  }

  // The same, but for the children of one row whose turn to push them it is.
  ghost predicate NoneMissedBut(links: map<Id, Id>, stack: seq<(Id, nat)>, seen: set<Id>, current: Id)
  {
    forall c | c in links && links[c] in seen && links[c] != current :: c in seen + Stacked(stack)
  }

  lemma {:induction false} ClosedCoversTree(root: Id, links: map<Id, Id>, depth: map<Id, nat>, seen: set<Id>, x: Id)
    requires Surveyed(root, links, depth) && root in seen && NoneMissed(links, [], seen) && x in depth
    ensures x in seen
    decreases depth[x]
  {
    if x != root {
      assert Hangs(links, depth, x);
      ClosedCoversTree(root, links, depth, seen, links[x]);
    }
  }

  lemma {:induction false} PushStacks(stack: seq<(Id, nat)>, x: Id, d: nat)
    ensures Stacked(stack + [(x, d)]) == Stacked(stack) + {x}
  {
    assert (stack + [(x, d)])[..|stack|] == stack;
  }

  // What is known of the stack: its entries are sound and no row was dropped.
  ghost predicate Searching(root: Id, links: map<Id, Id>, depth: map<Id, nat>, stack: seq<(Id, nat)>, seen: set<Id>)
  {
    && StackSound(depth, stack, seen) && NoneMissed(links, stack, seen)
    && (root in seen || stack == [(root, 1)])
    && seen <= depth.Keys
  }

  lemma {:induction false} Pop(root: Id, links: map<Id, Id>, depth: map<Id, nat>, stack: seq<(Id, nat)>, seen: set<Id>)
    requires stack != [] && Searching(root, links, depth, stack, seen)
    requires root in depth && depth[root] == 1
    ensures var (current, at) := stack[|stack| - 1]; var rest := stack[..|stack| - 1];
            current in depth &&
            if current in seen then Searching(root, links, depth, rest, seen)
            else
              && at == depth[current] && root in seen + {current} && StackSound(depth, rest, seen + {current})
              && NoneMissedBut(links, rest, seen + {current}, current)
  {
    var (current, at) := stack[|stack| - 1];
    var rest := stack[..|stack| - 1];
    assert Stacked(stack) == Stacked(rest) + {current};
    assert forall i | 0 <= i < |rest| :: rest[i] == stack[i];
  }

  lemma {:induction false} OneMoreSeen(seen: set<Id>, x: Id)
    requires x !in seen
    ensures |seen + {x}| == |seen| + 1
  {
  }

  lemma {:induction false} EmptyStackMeansDone(root: Id, links: map<Id, Id>, depth: map<Id, nat>, seen: set<Id>)
    requires Surveyed(root, links, depth) && Searching(root, links, depth, [], seen)
    ensures seen == depth.Keys
  {
    forall x | x in depth
      ensures x in seen
    {
      ClosedCoversTree(root, links, depth, seen, x);
    }
  }

  // compression_tip pushes the continuations it has not visited yet;
  // freshest_continuation_tip pushes all of them and filters when it pops.
  method PushContinuations(rows: Rows, kids: seq<Id>, current: Id, at: nat, seen: set<Id>, skipSeen: bool,
                           base: seq<(Id, nat)>, ghost root: Id, ghost links: map<Id, Id>, ghost depth: map<Id, nat>)
    returns (stack: seq<(Id, nat)>)
    requires Surveyed(root, links, depth) && current in rows && KidsMeetLinks(rows, kids, links, current)
    requires current in depth && current in seen && root in seen && at == depth[current]
    requires StackSound(depth, base, seen)
    requires NoneMissedBut(links, base, seen, current)
    ensures StackSound(depth, stack, seen) && NoneMissed(links, stack, seen)
  {
    stack := base;
    for k := 0 to |kids|
      invariant StackSound(depth, stack, seen)
      invariant Stacked(base) <= Stacked(stack)
      invariant forall j | 0 <= j < k && kids[j] in links && links[kids[j]] == current ::
                  kids[j] in seen + Stacked(stack)
    {
      var child := kids[k];
      if !(skipSeen && child in seen) && IsContinuation(rows[current], rows[child]) {
        PushStacks(stack, child, at + 1);
        assert child != root ==> Hangs(links, depth, child);
        stack := stack + [(child, at + 1)];
      }
    }
  }

  // The running choice is admissible and at least as fresh as every admissible visited row.
  ghost predicate BestSoFar(rows: Rows, p: Id -> bool, tip: Option<Id>, score: real, at: nat,
                            seen: set<Id>, depth: map<Id, nat>)
    requires seen <= depth.Keys <= rows.Keys
  {
    && (tip.Some? ==> tip.value in depth && p(tip.value) && at == depth[tip.value] && score == Score(rows[tip.value]))
    && forall x | x in seen && p(x) :: tip.Some? && AtLeast(score, at, Score(rows[x]), depth[x])
  }

  // Visiting one more row, with the choice it leaves.
  lemma {:induction false} BestStep(rows: Rows, p: Id -> bool, tip: Option<Id>, score: real, at: nat,
                                    tip': Option<Id>, score': real, at': nat,
                                    seen: set<Id>, current: Id, depth: map<Id, nat>)
    requires seen + {current} <= depth.Keys <= rows.Keys
    requires BestSoFar(rows, p, tip, score, at, seen, depth)
    requires || (tip' == tip && score' == score && at' == at
                 && (p(current) ==> tip.Some? && AtLeast(score, at, Score(rows[current]), depth[current])))
             || (tip' == Some(current) && score' == Score(rows[current]) && at' == depth[current] && p(current)
                 && (tip.Some? ==> AtLeast(score', at', score, at)))
    ensures BestSoFar(rows, p, tip', score', at', seen + {current}, depth)
  {
  }

  method CompressionSearch(rows: Rows, children: map<Id, seq<Id>>, root: Id, ghost p: Id -> bool,
                           ghost links: map<Id, Id>, ghost depth: map<Id, nat>)
    returns (tip: Option<Id>, segments: nat, bestScore: real, bestDepth: nat)
    requires Surveyed(root, links, depth) && ChildrenMeetLinks(rows, children, links)
    requires NoId !in depth && depth.Keys <= rows.Keys
    requires forall x | x in depth ::
               p(x) <==> rows[x].messages > 0 && (rows[root].messages > 0 || Score(rows[x]) >= 0.0)
    ensures segments == |depth|
    ensures BestSoFar(rows, p, tip, bestScore, bestDepth, depth.Keys, depth)
  {
    tip := if rows[root].messages > 0 then Some(root) else None;
    bestDepth := 1;
    bestScore := if tip.Some? then Score(rows[root]) else 0.0;
    var stack: seq<(Id, nat)> := [(root, 1)];
    var seen: set<Id> := {};
    segments := 0;
    while stack != []
      invariant segments == |seen|
      invariant Searching(root, links, depth, stack, seen)
      invariant BestSoFar(rows, p, tip, bestScore, bestDepth, seen, depth)
      invariant tip == None ==> bestScore == 0.0 && bestDepth == 1 && rows[root].messages <= 0
      decreases depth.Keys - seen, |stack|
    {
      Pop(root, links, depth, stack, seen);
      var (current, at) := stack[|stack| - 1];
      stack := stack[..|stack| - 1];
      if current == NoId || current in seen {
        continue;
      }
      ghost var tip0, score0, depth0 := tip, bestScore, bestDepth;
      var currentScore := Score(rows[current]);
      if rows[current].messages > 0 &&
         (currentScore > bestScore || (currentScore == bestScore && at >= bestDepth)) {
        tip := Some(current);
        bestDepth := at;
        bestScore := currentScore;
      }
      BestStep(rows, p, tip0, score0, depth0, tip, bestScore, bestDepth, seen, current, depth);
      OneMoreSeen(seen, current);
      seen := seen + {current};
      segments := segments + 1;
      stack := PushContinuations(rows, Children(children, current), current, at, seen, true, stack, root, links, depth);
    }
    EmptyStackMeansDone(root, links, depth, seen);
    segments := if segments > 1 then segments else 1;
  }

  method CompressionTip(rows: Rows, children: map<Id, seq<Id>>, root: Id) returns (tip: Option<Id>, segments: nat)
    requires WellKeyed(rows) && ListsChildren(rows, children) && root in rows
    ensures segments == |Tree(rows, root)|
    ensures tip == None <==> forall x | x in Tree(rows, root) :: !Importable(rows, root)(x)
    ensures tip.Some? ==> Importable(rows, root)(tip.value)
                          && exists d: nat :: Freshest(rows, root, Importable(rows, root), tip.value, d)
  {
    ghost var p := Importable(rows, root);
    ghost var links, depth := Survey(rows, children, root);
    var bestScore, bestDepth;
    tip, segments, bestScore, bestDepth := CompressionSearch(rows, children, root, p, links, depth);
    BestIsFreshest(rows, root, p, tip, bestScore, bestDepth, depth);
  }

  // Best of all visited rows is freshest of the tree.
  lemma {:induction false} BestIsFreshest(rows: Rows, root: Id, p: Id -> bool, tip: Option<Id>, score: real, at: nat,
                                          depth: map<Id, nat>)
    requires AreDepths(rows, root, depth)
    requires BestSoFar(rows, p, tip, score, at, depth.Keys, depth)
    ensures tip.Some? ==> Freshest(rows, root, p, tip.value, at)
  {
    if tip.Some? {
      assert At(rows, root, tip.value, at);
    }
  }

  // What freshest_continuation_tip chooses among: it starts from the root, with or without messages.
  function HeadOrMessages(rows: Rows, root: Id): Id -> bool
  {
    x => x in rows && (x == root || rows[x].messages > 0)
  }

  // The running choice, which is never staler than the root it started from.
  ghost predicate FreshestSoFar(rows: Rows, root: Id, best: Id, score: real, at: nat,
                                seen: set<Id>, depth: map<Id, nat>)
    requires seen <= depth.Keys <= rows.Keys && root in rows
  {
    && BestSoFar(rows, HeadOrMessages(rows, root), Some(best), score, at, seen, depth)
    && AtLeast(score, at, Score(rows[root]), 1)
  }

  // The fresher of the best row so far and the current one.
  method Fresher(rows: Rows, root: Id, best: Id, bestScore: real, bestDepth: nat, current: Id, at: nat,
                 ghost seen: set<Id>, ghost depth: map<Id, nat>)
    returns (best': Id, bestScore': real, bestDepth': nat)
    requires seen + {current} <= depth.Keys <= rows.Keys && root in rows && at == depth[current] >= 1
    requires current == root ==> at == 1
    requires FreshestSoFar(rows, root, best, bestScore, bestDepth, seen, depth)
    ensures FreshestSoFar(rows, root, best', bestScore', bestDepth', seen + {current}, depth)
  {
    best', bestScore', bestDepth' := best, bestScore, bestDepth;
    var score := Score(rows[current]);
    if rows[current].messages > 0 && (score > bestScore || (score == bestScore && at >= bestDepth)) {
      best', bestScore', bestDepth' := current, score, at;
    }
    BestStep(rows, HeadOrMessages(rows, root), Some(best), bestScore, bestDepth, Some(best'), bestScore', bestDepth',
             seen, current, depth);
  }

  method FreshestSearch(rows: Rows, children: map<Id, seq<Id>>, root: Id,
                        ghost links: map<Id, Id>, ghost depth: map<Id, nat>)
    returns (best: Id, segments: nat, bestScore: real, bestDepth: nat)
    requires Surveyed(root, links, depth) && ChildrenMeetLinks(rows, children, links)
    requires depth.Keys <= rows.Keys
    ensures segments == |depth|
    ensures BestSoFar(rows, HeadOrMessages(rows, root), Some(best), bestScore, bestDepth, depth.Keys, depth)
  {
    best, bestDepth, segments := root, 1, 0;
    bestScore := Score(rows[root]);
    var stack: seq<(Id, nat)> := [(root, 1)];
    var seen: set<Id> := {};
    while stack != []
      invariant segments == |seen|
      invariant Searching(root, links, depth, stack, seen)
      invariant FreshestSoFar(rows, root, best, bestScore, bestDepth, seen, depth)
      decreases depth.Keys - seen, |stack|
    {
      Pop(root, links, depth, stack, seen);
      var (current, at) := stack[|stack| - 1];
      stack := stack[..|stack| - 1];
      if current in seen {
        continue;
      }
      best, bestScore, bestDepth := Fresher(rows, root, best, bestScore, bestDepth, current, at, seen, depth);
      OneMoreSeen(seen, current);
      seen := seen + {current};
      segments := segments + 1;
      stack :=
        PushContinuations(rows, Children(children, current), current, at, seen, false, stack, root, links, depth);
    }
    EmptyStackMeansDone(root, links, depth, seen);
    DepthFits(root, links, depth, best);
    segments := if segments > bestDepth then segments else bestDepth;
  }

  lemma {:induction false} DepthFits(root: Id, links: map<Id, Id>, depth: map<Id, nat>, x: Id)
    requires Surveyed(root, links, depth) && x in depth
    ensures depth[x] <= |depth.Keys|
  {
    var path := AncestorPath(root, links, depth, x);
    SubsetSize(path, depth.Keys);
  }

  // A row d segments down has d - 1 distinct rows of the tree above it.
  lemma {:induction false} AncestorPath(root: Id, links: map<Id, Id>, depth: map<Id, nat>, x: Id)
    returns (path: set<Id>)
    requires Surveyed(root, links, depth) && x in depth
    ensures path <= depth.Keys && |path| == depth[x]
    ensures forall y | y in path :: depth[y] <= depth[x]
    decreases depth[x]
  {
    if x == root {
      path := {root};
    } else {
      assert Hangs(links, depth, x);
      path := AncestorPath(root, links, depth, links[x]);
      path := path + {x};
    }
  }

  method FreshestContinuationTip(rows: Rows, children: map<Id, seq<Id>>, root: Id) returns (best: Id, segments: nat)
    requires ListsChildren(rows, children)
    ensures root !in rows ==> best == root && segments == 1
    ensures root in rows ==> segments == |Tree(rows, root)|
    ensures root in rows ==> HeadOrMessages(rows, root)(best)
                             && exists d: nat :: Freshest(rows, root, HeadOrMessages(rows, root), best, d)
  {
    if root !in rows {
      return root, 1;
    }
    ghost var links, depth := Survey(rows, children, root);
    var bestScore, bestDepth;
    best, segments, bestScore, bestDepth := FreshestSearch(rows, children, root, links, depth);
    BestIsFreshest(rows, root, HeadOrMessages(rows, root), Some(best), bestScore, bestDepth, depth);
  }

  /**
    The two searches pick rows of equal score and depth exactly when the row
    chosen by the first is no staler than the root. A root with messages always
    is such; a root without messages may not be.
   */
  lemma {:induction false} TipsAgree(rows: Rows, root: Id, tip: Id, d: nat, best: Id, e: nat)
    requires Importable(rows, root)(tip) && Freshest(rows, root, Importable(rows, root), tip, d)
    requires HeadOrMessages(rows, root)(best) && Freshest(rows, root, HeadOrMessages(rows, root), best, e)
    requires root in rows
    ensures (Score(rows[tip]) == Score(rows[best]) && d == e) <==> Score(rows[tip]) >= Score(rows[root])
    ensures rows[root].messages > 0 ==> Score(rows[tip]) == Score(rows[best]) && d == e
  {
    assert At(rows, root, root, 1);
    assert d >= 1;
    if best == root {
      DepthUnique(rows, root, root, e, 1);
    }
  }

  /** A tip is None for a tree that has messages only when every such row scores below zero. */
  lemma {:induction false} NegativeScoreHidesTree(root: Row, child: Row)
    requires root.id == Sid("a") && root.parent == NoId && root.messages == 0
    requires root.endReason == Compression && root.endedAt == Absent
    requires child.id == Sid("b") && child.parent == root.id && child.messages > 0
    requires !child.forked && child.source == root.source
    requires child.lastActivity == Number(-1.0)
    ensures var rows := map[root.id := root, child.id := child];
            child.id in Tree(rows, root.id) && forall x | x in Tree(rows, root.id) :: !Importable(rows, root.id)(x)
  {
    var rows := map[root.id := root, child.id := child];
    assert At(rows, root.id, root.id, 1);
    assert At(rows, root.id, child.id, 2);
  }
}
