/**
  Collapsing session rows into one sidebar row per conversation, and the
  partition of all rows into conversations that makes the collapse lossless.
 */
module Projection {
  import opened Options
  import opened Continuation
  import opened LineageTips

  // ----- the partition -----

  /** Trees hanging under different heads share no row. */
  lemma {:induction false} TreesDisjoint(rows: Rows, r: Id, s: Id, x: Id, d: nat, e: nat)
    requires !Continues(rows, r) && !Continues(rows, s)
    requires At(rows, r, x, d) && At(rows, s, x, e)
    ensures r == s
    decreases d
  {
    if d > 1 && e > 1 {
      TreesDisjoint(rows, r, s, rows[x].parent, d - 1, e - 1);
    }
  }

  /** On acyclic links a row lies in the tree of exactly one head: the root its walk finds. */
  lemma {:induction false} EveryRowHasOneHead(rows: Rows, x: Id)
    requires Acyclic(rows) && x in rows
    ensures var r := Root(rows, x, {x}); r in rows && !Continues(rows, r) && x in Tree(rows, r)
    ensures forall s | !Continues(rows, s) && x in Tree(rows, s) :: s == Root(rows, x, {x})
  {
    var r := Root(rows, x, {x});
    SelfBelow(rows, x);
    AcyclicRoot(rows, x, {x}, {x});
    var d := RootReached(rows, x, {x});
    assert InTree(rows, r, x);
    HeadIsRow(rows, r, x, d);
    forall s | !Continues(rows, s) && x in Tree(rows, s)
      ensures s == r
    {
      var e: nat :| At(rows, s, x, e);
      TreesDisjoint(rows, s, r, x, e, d);
    }
  }

  lemma {:induction false} HeadIsRow(rows: Rows, r: Id, x: Id, d: nat)
    requires At(rows, r, x, d) && x in rows
    ensures r in rows
    decreases d
  {
    if d > 1 {
      HeadIsRow(rows, r, rows[x].parent, d - 1);
    }
  }

  // Segment counts over a list of heads, and the rows their trees cover.
  ghost function SegmentSum(rows: Rows, heads: seq<Id>): nat
  {
    if heads == [] then 0 else SegmentSum(rows, heads[1..]) + |Tree(rows, heads[0])|
  }

  ghost function Covered(rows: Rows, heads: seq<Id>): set<Id>
  {
    if heads == [] then {} else Covered(rows, heads[1..]) + Tree(rows, heads[0])
  }

  lemma {:induction false} CoveredBySome(rows: Rows, heads: seq<Id>, x: Id)
    ensures x in Covered(rows, heads) <==> exists i | 0 <= i < |heads| :: x in Tree(rows, heads[i])
  {
    if heads == [] {
    } else {
      CoveredBySome(rows, heads[1..], x);
      if x in Covered(rows, heads[1..]) {
        var i :| 0 <= i < |heads[1..]| && x in Tree(rows, heads[1..][i]);
        assert heads[1..][i] == heads[i + 1];
      }
      if i :| 0 <= i < |heads| && x in Tree(rows, heads[i]) {
        assert i > 0 ==> heads[1..][i - 1] == heads[i];
      }
    }
  }

  lemma {:induction false} SumIsCoverage(rows: Rows, heads: seq<Id>)
    requires forall i | 0 <= i < |heads| :: !Continues(rows, heads[i])
    requires forall i, j | 0 <= i < j < |heads| :: heads[i] != heads[j]
    ensures SegmentSum(rows, heads) == |Covered(rows, heads)|
  {
    if heads == [] {
    } else {
      SumIsCoverage(rows, heads[1..]);
      forall x | x in Covered(rows, heads[1..]) && x in Tree(rows, heads[0])
        ensures false
      {
        CoveredBySome(rows, heads[1..], x);
        var i :| 0 <= i < |heads[1..]| && x in Tree(rows, heads[1..][i]);
        var d: nat :| At(rows, heads[1..][i], x, d);
        var e: nat :| At(rows, heads[0], x, e);
        TreesDisjoint(rows, heads[i + 1], heads[0], x, d, e);
      }
    }
  }

  /** The segment counts of all heads, emitted or not, add up to the number of rows. */
  lemma {:induction false} SegmentsCountEveryRow(rows: Rows, heads: seq<Id>)
    requires Acyclic(rows)
    requires forall i, j | 0 <= i < j < |heads| :: heads[i] != heads[j]
    requires forall r :: r in heads <==> r in rows && !Continues(rows, r)
    ensures SegmentSum(rows, heads) == |rows|
  {
    SumIsCoverage(rows, heads);
    forall x
      ensures x in Covered(rows, heads) <==> x in rows
    {
      CoveredBySome(rows, heads, x);
      if x in rows {
        EveryRowHasOneHead(rows, x);
      }
    }
    assert Covered(rows, heads) == rows.Keys;
  }

  // A head not closed by compression or by the CLI is continued by nothing.
  lemma {:induction false} OpenHeadIsAlone(rows: Rows, root: Id, x: Id, d: nat)
    requires root in rows && rows[root].endReason == OtherEnd && At(rows, root, x, d)
    ensures x == root
    decreases d
  {
    if d > 1 {
      OpenHeadIsAlone(rows, root, rows[x].parent, d - 1);
    }
  }

  // ----- the projected rows -----

  // A row shown as it is, or a head shown with the activity and id of its tip.
  datatype Projected = Whole(row: Row) | Merged(head: Row, tip: Row, segments: nat)

  function HeadId(p: Projected): Id
  {
    if p.Whole? then p.row.id else p.head.id
  }

  function EmittedId(p: Projected): Id
  {
    if p.Whole? then p.row.id else p.tip.id
  }

  function SortKey(p: Projected): real
  {
    if p.Whole? then Score(p.row) else AsScore(p.tip.lastActivity, p.head.startedAt)
  }

  // What one projected row promises about its conversation.
  ghost predicate Represents(rows: Rows, p: Projected)
  {
    var r, t := HeadId(p), EmittedId(p);
    && r in rows && !Continues(rows, r)
    && t in rows && Importable(rows, r)(t)
    && (exists d: nat :: Freshest(rows, r, Importable(rows, r), t, d))
    && p == if t == r then Whole(rows[r]) else Merged(rows[r], rows[t], |Tree(rows, r)|)
  }

  // A head whose conversation can be imported at all.
  ghost predicate Shown(rows: Rows, r: Id)
  {
    r in rows && !Continues(rows, r) && exists x :: x in Tree(rows, r) && Importable(rows, r)(x)
  }

  ghost predicate DistinctHeads(ps: seq<Projected>)
  {
    forall i, j | 0 <= i < j < |ps| :: HeadId(ps[i]) != HeadId(ps[j])
  }

  // Newest first; rows of equal key keep their order.
  function InsertDesc(ps: seq<Projected>, p: Projected): seq<Projected>
  {
    if ps == [] then [p]
    else if SortKey(ps[|ps| - 1]) >= SortKey(p) then ps + [p]
    else InsertDesc(ps[..|ps| - 1], p) + [ps[|ps| - 1]]
  }

  function SortDesc(ps: seq<Projected>): seq<Projected>
  {
    if ps == [] then [] else InsertDesc(SortDesc(ps[..|ps| - 1]), ps[|ps| - 1])
  }

  ghost predicate Descending(ps: seq<Projected>)
  {
    forall i, j | 0 <= i < j < |ps| :: SortKey(ps[i]) >= SortKey(ps[j])
  }

  lemma {:induction false} InsertKeepsRows(ps: seq<Projected>, p: Projected)
    ensures multiset(InsertDesc(ps, p)) == multiset(ps) + multiset{p}
  {
    if ps == [] {
    } else {
      InsertKeepsRows(ps[..|ps| - 1], p);
      assert ps == ps[..|ps| - 1] + [ps[|ps| - 1]];
    }
  }

  lemma {:induction false} InsertSorts(ps: seq<Projected>, p: Projected)
    requires Descending(ps)
    ensures Descending(InsertDesc(ps, p))
  {
    if ps != [] && SortKey(ps[|ps| - 1]) < SortKey(p) {
      var init, last := ps[..|ps| - 1], ps[|ps| - 1];
      InsertSorts(init, p);
      InsertKeepsRows(init, p);
      var ins := InsertDesc(init, p);
      forall i | 0 <= i < |ins|
        ensures SortKey(ins[i]) >= SortKey(last)
      {
        assert ins[i] in multiset(ins);
        assert ins[i] == p || ins[i] in init;
      }
    }
  }

  lemma {:induction false} SortKeepsRows(ps: seq<Projected>)
    ensures multiset(SortDesc(ps)) == multiset(ps)
  {
    if ps == [] {
    } else {
      var init, last := ps[..|ps| - 1], ps[|ps| - 1];
      SortKeepsRows(init);
      InsertKeepsRows(SortDesc(init), last);
      assert ps == init + [last];
    }
  }

  lemma {:induction false} SortSorts(ps: seq<Projected>)
    ensures Descending(SortDesc(ps))
  {
    if ps == [] {
    } else {
      SortSorts(ps[..|ps| - 1]);
      InsertSorts(SortDesc(ps[..|ps| - 1]), ps[|ps| - 1]);
    }
  }

  lemma {:induction false} PermutationKeepsDistinct(ps: seq<Projected>, qs: seq<Projected>)
    requires DistinctHeads(ps) && multiset(ps) == multiset(qs)
    ensures DistinctHeads(qs)
  {
    forall i, j | 0 <= i < j < |qs|
      ensures HeadId(qs[i]) != HeadId(qs[j])
    {
      if HeadId(qs[i]) == HeadId(qs[j]) {
        assert qs[i] in multiset(ps) && qs[j] in multiset(ps);
        assert qs[i] == qs[j];
        TwiceInMultiset(qs, i, j);
        OnceInMultiset(ps, qs[i]);
      }
    }
  }

  lemma {:induction false} TwiceInMultiset(qs: seq<Projected>, i: int, j: int)
    requires 0 <= i < j < |qs| && qs[i] == qs[j]
    ensures multiset(qs)[qs[i]] >= 2
  {
    assert qs == qs[..i] + [qs[i]] + qs[i + 1..j] + [qs[j]] + qs[j + 1..];
  }

  lemma {:induction false} OnceInMultiset(ps: seq<Projected>, p: Projected)
    requires DistinctHeads(ps)
    ensures multiset(ps)[p] <= 1
  {
    if ps == [] {
    } else {
      OnceInMultiset(ps[1..], p);
      assert ps == [ps[0]] + ps[1..];
      if p == ps[0] {
        assert p !in ps[1..];
      }
    }
  }

  // ----- the projection itself -----

  function ById(input: seq<Row>): Rows
  {
    if input == [] then map[] else ById(input[..|input| - 1])[input[|input| - 1].id := input[|input| - 1]]
  }

  ghost predicate UniqueIds(input: seq<Row>)
  {
    && (forall i | 0 <= i < |input| :: input[i].id != NoId)
    && (forall i, j | 0 <= i < j < |input| :: input[i].id != input[j].id)
  }

  // rows holds exactly the rows of the list, each under its own id.
  ghost predicate Indexes(rows: Rows, input: seq<Row>)
  {
    && (forall i | 0 <= i < |input| :: Filed(rows, input[i]))
    && (forall x {:trigger Listed(rows, input, x)} | x in rows :: Listed(rows, input, x))
    && WellKeyed(rows)
  }

  predicate Listed(rows: Rows, input: seq<Row>, x: Id)
  {
    x in rows && rows[x] in input
  }

  predicate Filed(rows: Rows, row: Row)
  {
    row.id in rows && rows[row.id] == row
  }

  lemma {:induction false} ByIdIndexes(input: seq<Row>)
    requires UniqueIds(input)
    ensures Indexes(ById(input), input) && |ById(input)| == |input|
  {
    if input == [] {
    } else {
      var init, last := input[..|input| - 1], input[|input| - 1];
      ByIdIndexes(init);
      var rows, before := ById(input), ById(init);
      assert last.id in before ==> Listed(before, init, last.id);
      assert rows.Keys == before.Keys + {last.id};
      forall i | 0 <= i < |input|
        ensures Filed(rows, input[i])
      {
        assert i < |init| ==> Filed(before, init[i]);
      }
      forall x | x in rows
        ensures Listed(rows, input, x) && rows[x].id == x
      {
        assert x != last.id ==> Listed(before, init, x);
      }
    }
  }

  // The child lists and the ids that continue some parent, gathered in one pass.
  method IndexChildren(input: seq<Row>, rows: Rows) returns (children: map<Id, seq<Id>>, continuations: set<Id>)
    requires Indexes(rows, input)
    ensures ListsChildren(rows, children)
    ensures forall x :: x in continuations <==> Continues(rows, x)
  {
    children, continuations := map[], {};
    for i := 0 to |input|
      invariant NoId !in children
      invariant forall p, c | c in Children(children, p) :: c in rows && rows[c].parent == p
      invariant forall j | 0 <= j < i && input[j].parent != NoId :: input[j].id in Children(children, input[j].parent)
      invariant forall x | x in continuations :: Continues(rows, x)
      invariant forall j | 0 <= j < i && Continues(rows, input[j].id) :: input[j].id in continuations
    {
      var row := input[i];
      assert Filed(rows, row);
      if row.parent == NoId {
        continue;
      }
      ghost var before := children;
      children := children[row.parent := Children(children, row.parent) + [row.id]];
      ChildAdded(before, children, row.parent, row.id);
      if row.parent in rows && IsContinuation(rows[row.parent], row) {
        continuations := continuations + {row.id};
      }
    }
    forall c | c in rows
      ensures Continues(rows, c) ==> c in continuations
      ensures rows[c].parent != NoId ==> c in Children(children, rows[c].parent)
    {
      assert Listed(rows, input, c);
    }
  }

  // after lists one more child than before.
  lemma {:induction false} ChildAdded(before: map<Id, seq<Id>>, after: map<Id, seq<Id>>, parent: Id, child: Id)
    requires after == before[parent := Children(before, parent) + [child]]
    ensures forall p, c :: c in Children(after, p) <==> c in Children(before, p) || (p == parent && c == child)
  {
    forall p, c
      ensures c in Children(after, p) <==> c in Children(before, p) || (p == parent && c == child)
    {
      assert p != parent ==> Children(after, p) == Children(before, p);
    }
  }

  // One head: nothing when its conversation has no importable row.
  method ProjectHead(rows: Rows, children: map<Id, seq<Id>>, row: Row) returns (p: Option<Projected>)
    requires WellKeyed(rows) && ListsChildren(rows, children)
    requires row.id in rows && rows[row.id] == row && !Continues(rows, row.id)
    ensures p.Some? <==> Shown(rows, row.id)
    ensures p.Some? ==> Represents(rows, p.value) && HeadId(p.value) == row.id
  {
    var segments, tip := 1, Some(row.id);
    if row.endReason != OtherEnd {
      tip, segments := CompressionTip(rows, children, row.id);
    } else {
      LoneHead(rows, row.id);
    }
    if tip == None || rows[tip.value].messages <= 0 {
      return None;
    }
    assert Importable(rows, row.id)(tip.value);
    assert InTree(rows, row.id, tip.value);
    p := Some(if tip.value == row.id then Whole(row) else Merged(row, rows[tip.value], segments));
  }

  // Heads in input order, before sorting.
  method ProjectHeads(input: seq<Row>, rows: Rows, children: map<Id, seq<Id>>, continuations: set<Id>)
    returns (emitted: seq<Projected>)
    requires UniqueIds(input) && Indexes(rows, input) && ListsChildren(rows, children)
    requires forall x :: x in continuations <==> Continues(rows, x)
    ensures forall k | 0 <= k < |emitted| :: Represents(rows, emitted[k])
    ensures DistinctHeads(emitted)
    ensures forall j | 0 <= j < |input| && Shown(rows, input[j].id) ::
              exists k :: 0 <= k < |emitted| && HeadId(emitted[k]) == input[j].id
  {
    emitted := [];
    for i := 0 to |input|
      invariant forall k | 0 <= k < |emitted| :: Represents(rows, emitted[k])
      invariant forall j | i <= j < |input| :: input[j].id !in Heads(emitted)
      invariant DistinctHeads(emitted)
      invariant forall j | 0 <= j < i && Shown(rows, input[j].id) :: input[j].id in Heads(emitted)
    {
      var row := input[i];
      assert Filed(rows, row);
      if row.id in continuations {
        continue;
      }
      var p := ProjectHead(rows, children, row);
      if p.Some? {
        EmitOneMore(emitted, p.value);
        emitted := emitted + [p.value];
      }
    }
    forall j | 0 <= j < |input| && Shown(rows, input[j].id)
      ensures exists k :: 0 <= k < |emitted| && HeadId(emitted[k]) == input[j].id
    {
      HeadsAt(emitted, input[j].id);
    }
  }

  ghost function Heads(ps: seq<Projected>): set<Id>
  {
    if ps == [] then {} else Heads(ps[..|ps| - 1]) + {HeadId(ps[|ps| - 1])}
  }

  lemma {:induction false} HeadsAt(ps: seq<Projected>, r: Id)
    ensures r in Heads(ps) <==> exists k :: 0 <= k < |ps| && HeadId(ps[k]) == r
  {
    if ps == [] {
    } else {
      var init := ps[..|ps| - 1];
      HeadsAt(init, r);
      assert forall k | 0 <= k < |init| :: init[k] == ps[k];
    }
  }

  lemma {:induction false} EmitOneMore(ps: seq<Projected>, p: Projected)
    ensures Heads(ps + [p]) == Heads(ps) + {HeadId(p)}
    ensures DistinctHeads(ps) && HeadId(p) !in Heads(ps) ==> DistinctHeads(ps + [p])
  {
    assert (ps + [p])[..|ps|] == ps;
    HeadsAt(ps, HeadId(p));
  }

  method Project(input: seq<Row>) returns (projected: seq<Projected>)
    requires UniqueIds(input)
    ensures forall k | 0 <= k < |projected| :: Represents(ById(input), projected[k])
    ensures DistinctHeads(projected)
    ensures forall i, j | 0 <= i < j < |projected| :: EmittedId(projected[i]) != EmittedId(projected[j])
    ensures forall r | Shown(ById(input), r) :: exists k :: 0 <= k < |projected| && HeadId(projected[k]) == r
    ensures Descending(projected)
  {
    ByIdIndexes(input);
    var rows := ById(input);
    var children, continuations := IndexChildren(input, rows);
    var emitted := ProjectHeads(input, rows, children, continuations);
    projected := SortDesc(emitted);
    SortSorts(emitted);
    SortKeepsRows(emitted);
    PermutationKeepsDistinct(emitted, projected);
    SameRows(emitted, projected);
    forall k | 0 <= k < |projected|
      ensures Represents(rows, projected[k])
    {
      assert projected[k] in emitted;
    }
    TipsDistinct(rows, projected);
    forall r | Shown(rows, r)
      ensures exists k :: 0 <= k < |projected| && HeadId(projected[k]) == r
    {
      assert Listed(rows, input, r);
      var j :| 0 <= j < |input| && input[j].id == r;
      var k :| 0 <= k < |emitted| && HeadId(emitted[k]) == r;
      assert emitted[k] in projected;
    }
  }

  lemma {:induction false} SameRows(ps: seq<Projected>, qs: seq<Projected>)
    requires multiset(ps) == multiset(qs)
    ensures forall p :: p in ps <==> p in qs
  {
    assert forall p :: p in ps <==> p in multiset(ps);
  }

  lemma {:induction false} LoneHead(rows: Rows, r: Id)
    requires r in rows && rows[r].endReason == OtherEnd
    ensures Tree(rows, r) == {r}
    ensures rows[r].messages > 0 ==> exists d: nat :: Freshest(rows, r, Importable(rows, r), r, d)
  {
    assert At(rows, r, r, 1);
    assert InTree(rows, r, r);
    forall x, d: nat | At(rows, r, x, d)
      ensures x == r
    {
      OpenHeadIsAlone(rows, r, x, d);
    }
    forall x, e: nat | At(rows, r, x, e)
      ensures x == r && e == 1
    {
      DepthUnique(rows, r, r, e, 1);
    }
    if rows[r].messages > 0 {
      assert Freshest(rows, r, Importable(rows, r), r, 1);
    }
  }

  // Tips of different conversations lie in disjoint trees.
  lemma {:induction false} TipsDistinct(rows: Rows, ps: seq<Projected>)
    requires DistinctHeads(ps) && forall k | 0 <= k < |ps| :: Represents(rows, ps[k])
    requires WellKeyed(rows)
    ensures forall i, j | 0 <= i < j < |ps| :: EmittedId(ps[i]) != EmittedId(ps[j])
  {
    forall i, j | 0 <= i < j < |ps|
      ensures EmittedId(ps[i]) != EmittedId(ps[j])
    {
      assert Represents(rows, ps[i]) && Represents(rows, ps[j]);
      var d: nat :| Freshest(rows, HeadId(ps[i]), Importable(rows, HeadId(ps[i])), EmittedId(ps[i]), d);
      var e: nat :| Freshest(rows, HeadId(ps[j]), Importable(rows, HeadId(ps[j])), EmittedId(ps[j]), e);
      if EmittedId(ps[i]) == EmittedId(ps[j]) {
        TreesDisjoint(rows, HeadId(ps[i]), HeadId(ps[j]), EmittedId(ps[i]), d, e);
      }
    }
  }

  /** With no negative score, a conversation is shown exactly when some row of it has messages. */
  lemma {:induction false} ShownMeansMessages(rows: Rows, r: Id)
    requires r in rows && forall x | x in rows :: Score(rows[x]) >= 0.0
    ensures Shown(rows, r) <==> !Continues(rows, r) && exists x :: x in Tree(rows, r) && rows[x].messages > 0
  {
    if x :| x in Tree(rows, r) && rows[x].messages > 0 {
      assert Importable(rows, r)(x);
    }
  }
}
