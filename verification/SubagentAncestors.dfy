/**
  After the newest rows are sliced off, subagent rows whose subagent parents
  fell outside the slice get those parents back.
 */
module SubagentAncestors {
  import opened Options

  // A projected row as this step reads it: is it a subagent's, and who is its parent.
  datatype SidebarRow = SidebarRow(id: Id, parent: Id, subagent: bool)

  function ById(rows: seq<SidebarRow>): map<Id, SidebarRow>
  {
    if rows == [] then map[]
    else
      var last := rows[|rows| - 1];
      if last.id == NoId then ById(rows[..|rows| - 1]) else ById(rows[..|rows| - 1])[last.id := last]
  }

  ghost function Ids(rows: seq<SidebarRow>): set<Id>
  {
    set r | r in rows :: r.id
  }

  ghost predicate DistinctIds(rows: seq<SidebarRow>)
  {
    forall i, j | 0 <= i < j < |rows| :: rows[i].id != rows[j].id
  }

  /** The parent a row must be shown with, if that parent is a projected subagent row. */
  function Wanted(byId: map<Id, SidebarRow>, row: SidebarRow): Option<Id>
  {
    if row.subagent && row.parent != NoId && row.parent in byId && byId[row.parent].subagent
    then Some(row.parent) else None
  }

  // The subagent row p is the parent of the subagent row r.
  predicate ParentOf(p: SidebarRow, r: SidebarRow)
  {
    p.subagent && r.subagent && p.id == r.parent != NoId
  }

  // With every projected subagent row the set holds that row's projected subagent parent.
  ghost predicate Closed(projected: seq<SidebarRow>, s: set<Id>)
  {
    forall r, p | r in projected && p in projected && ParentOf(p, r) && r.id in s :: p.id in s
  }

  // No closed set holding the slice can do without these ids.
  ghost predicate Needed(projected: seq<SidebarRow>, slice: set<Id>, have: set<Id>)
  {
    forall s | Closed(projected, s) && slice <= s :: have <= s
  }

  lemma {:induction false} ParentNeeded(projected: seq<SidebarRow>, slice: set<Id>, have: set<Id>, row: SidebarRow)
    requires Needed(projected, slice, have) && row in projected && row.id in have
    requires Wanted(ById(projected), row) == Some(row.parent)
    ensures Needed(projected, slice, have + {row.parent})
  {
    ByIdFinds(projected);
    assert ParentOf(ById(projected)[row.parent], row);
  }

  lemma {:induction false} ByIdFinds(rows: seq<SidebarRow>)
    ensures forall x | x in ById(rows) :: ById(rows)[x] in rows && ById(rows)[x].id == x
    ensures forall r | r in rows && r.id != NoId :: r.id in ById(rows)
  {
    if rows == [] {
    } else {
      ByIdFinds(rows[..|rows| - 1]);
    }
  }

  method AddAncestors(projected: seq<SidebarRow>, limit: int) returns (selected: seq<SidebarRow>)
    requires DistinctIds(projected)
    ensures DistinctIds(selected) && forall r | r in selected :: r in projected
    ensures Closed(projected, Ids(selected))
    ensures limit <= 0 ==> selected == []
    ensures 0 <= limit <= |projected| ==>
              projected[..limit] <= selected && Needed(projected, Ids(projected[..limit]), Ids(selected))
    ensures |projected| <= limit ==> selected == projected
  {
    var end := if limit < 0 then 0 else if limit < |projected| then limit else |projected|;
    selected := projected[..end];
    var have := set r | r in selected :: r.id;
    var byId := ById(projected);
    ByIdFinds(projected);
    var pending := selected;
    while pending != []
      invariant projected[..end] <= selected
      invariant have == Ids(selected) && DistinctIds(selected)
      invariant forall r | r in selected :: r in projected
      invariant forall r | r in pending :: r in selected
      invariant forall r | r in selected && Wanted(byId, r).Some? :: r in pending || Wanted(byId, r).value in have
      invariant Needed(projected, Ids(projected[..end]), have)
      decreases byId.Keys - have, |pending|
    {
      var row := pending[|pending| - 1];
      ghost var waiting := pending;
      pending := pending[..|pending| - 1];
      assert forall r | r in waiting :: r in pending || r == row;
      if !row.subagent || row.parent == NoId || row.parent in have || row.parent !in byId {
        continue;
      }
      var parent := byId[row.parent];
      if !parent.subagent {
        continue;
      }
      assert Wanted(byId, row) == Some(row.parent);
      IdsAppend(selected, parent);
      ParentNeeded(projected, Ids(projected[..end]), have, row);
      selected := selected + [parent];
      have := have + {row.parent};
      pending := pending + [parent];
    }
    NoneWanted(projected, selected);
    if limit <= 0 {
      NothingToAddTo(projected, selected);
    } else if end == |projected| {
      NothingToAdd(projected, selected);
    }
  }

  lemma {:induction false} NoneWanted(projected: seq<SidebarRow>, selected: seq<SidebarRow>)
    requires DistinctIds(projected) && forall r | r in selected :: r in projected
    requires forall r | r in selected && Wanted(ById(projected), r).Some? ::
               Wanted(ById(projected), r).value in Ids(selected)
    ensures Closed(projected, Ids(selected))
  {
    forall r, p | r in projected && p in projected && ParentOf(p, r) && r.id in Ids(selected)
      ensures p.id in Ids(selected)
    {
      SameIdSameRow(projected, selected, r);
      WantsParent(projected, r, p);
    }
  }

  lemma {:induction false} NothingToAddTo(projected: seq<SidebarRow>, selected: seq<SidebarRow>)
    requires Needed(projected, Ids(projected[..0]), Ids(selected))
    ensures selected == []
  {
    assert Closed(projected, {}) && Ids(projected[..0]) == {};
    assert selected != [] ==> selected[0].id in Ids(selected);
  }

  lemma {:induction false} WantsParent(projected: seq<SidebarRow>, r: SidebarRow, p: SidebarRow)
    requires DistinctIds(projected) && p in projected && ParentOf(p, r)
    ensures Wanted(ById(projected), r) == Some(p.id)
  {
    ByIdFinds(projected);
    SameIdSameRow(projected, projected, ById(projected)[p.id]);
    var q := ById(projected)[p.id];
    var i, j :| 0 <= i < |projected| && projected[i] == q && 0 <= j < |projected| && projected[j] == p;
    assert i == j;
  }

  lemma {:induction false} FoundBefore(projected: seq<SidebarRow>, selected: seq<SidebarRow>)
    requires projected <= selected && |projected| < |selected| && selected[|projected|] in projected
    ensures !DistinctIds(selected)
  {
    var i :| 0 <= i < |projected| && projected[i] == selected[|projected|];
    assert selected[i].id == selected[|projected|].id;
  }

  // All of the rows first, and none twice: nothing more.
  lemma {:induction false} NothingToAdd(projected: seq<SidebarRow>, selected: seq<SidebarRow>)
    requires projected <= selected && DistinctIds(selected) && forall r | r in selected :: r in projected
    ensures selected == projected
  {
    if |selected| > |projected| {
      FoundBefore(projected, selected);
    }
  }

  lemma {:induction false} IdsAppend(rows: seq<SidebarRow>, row: SidebarRow)
    ensures Ids(rows + [row]) == Ids(rows) + {row.id}
    ensures DistinctIds(rows) && row.id !in Ids(rows) ==> DistinctIds(rows + [row])
  {
    var more := rows + [row];
    assert forall r :: r in more <==> r in rows || r == row;
    assert forall i | 0 <= i < |rows| :: rows[i] in rows && rows[i].id in Ids(rows);
  }

  lemma {:induction false} SameIdSameRow(projected: seq<SidebarRow>, selected: seq<SidebarRow>, r: SidebarRow)
    requires DistinctIds(projected) && forall q | q in selected :: q in projected
    requires r in projected && r.id in Ids(selected)
    ensures r in selected
  {
    var q :| q in selected && q.id == r.id;
    var i, j :| 0 <= i < |projected| && projected[i] == r && 0 <= j < |projected| && projected[j] == q;
    assert i == j;
  }
}
