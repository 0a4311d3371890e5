/**
  What a conversation is made of: the laws of continuation links, seen from the
  trees and from the rows the projection emits.
 */
module Conversations {
  import opened Options
  import opened Continuation
  import opened LineageTips
  import opened Projection

  /**
    Every segment but the head is no fork, hangs under a parent closed by compression
    or by the CLI, started no earlier than that parent ended, and shares its source
    unless one of the two has none.
   */
  lemma {:induction false} SegmentFollowsParent(rows: Rows, root: Id, x: Id, d: nat)
    requires At(rows, root, x, d) && x != root
    ensures x in rows && rows[x].parent in rows && !rows[x].forked
    ensures var parent := rows[rows[x].parent];
            && (parent.endReason == Compression || parent.endReason == CliClose)
            && parent.endedAt != Malformed
            && (parent.endedAt.Number? ==> rows[x].startedAt != Malformed)
            && (parent.endedAt.Number? && rows[x].startedAt.Number? ==> parent.endedAt.value <= rows[x].startedAt.value)
            && (parent.endedAt.Number? && rows[x].startedAt == Absent ==> parent.endedAt.value <= 0.0)
            && (parent.source == rows[x].source || parent.source == "" || rows[x].source == "")
  {
  }

  // What the laws above ask of a row and its parent, when both times are there.
  ghost predicate StartedAfter(parent: Row, child: Row)
  {
    || parent.endedAt == Absent
    || (parent.endedAt.Number? && child.startedAt.Number? && parent.endedAt.value <= child.startedAt.value)
    || (parent.endedAt.Number? && child.startedAt == Absent && parent.endedAt.value <= 0.0)
  }

  /**
    Conversely: an unforked row that started at or after the end of its parent, which
    was closed by compression or by the CLI and has the same source or none, heads no
    conversation and is never emitted as one; it lies in every tree its parent lies in.
   */
  lemma {:induction false} SegmentIsNoHead(rows: Rows, x: Id)
    requires x in rows && rows[x].parent != NoId && rows[x].parent in rows && !rows[x].forked
    requires rows[rows[x].parent].endReason == Compression || rows[rows[x].parent].endReason == CliClose
    requires StartedAfter(rows[rows[x].parent], rows[x])
    requires rows[rows[x].parent].source == rows[x].source || rows[rows[x].parent].source == "" || rows[x].source == ""
    ensures forall p | Represents(rows, p) :: HeadId(p) != x
    ensures forall root, d: nat | At(rows, root, rows[x].parent, d) && x != root :: At(rows, root, x, d + 1)
  {
    assert Continues(rows, x);
    forall root, d: nat | At(rows, root, rows[x].parent, d) && x != root
      ensures At(rows, root, x, d + 1)
    {
      if d < 1 {
        assert false;
      }
    }
  }

  /** Where every row names its source, a conversation has one source. */
  lemma {:induction false} OneSource(rows: Rows, root: Id, x: Id, d: nat)
    requires root in rows && At(rows, root, x, d) && forall y | y in rows :: rows[y].source != ""
    ensures x in rows && rows[x].source == rows[root].source
    decreases d
  {
    if x != root {
      SegmentFollowsParent(rows, root, x, d);
      OneSource(rows, root, rows[x].parent, d - 1);
    }
  }

  /** So a row is merged only with a tip of its own source. */
  lemma {:induction false} MergedFromOneSource(rows: Rows, p: Projected)
    requires Represents(rows, p) && forall y | y in rows :: rows[y].source != ""
    ensures rows[HeadId(p)].source == rows[EmittedId(p)].source
  {
    var d: nat :| Freshest(rows, HeadId(p), Importable(rows, HeadId(p)), EmittedId(p), d);
    OneSource(rows, HeadId(p), EmittedId(p), d);
  }

  /** A row with messages whose parent has another source heads a conversation of its own, which is shown. */
  lemma {:induction false} OtherSourceStandsAlone(rows: Rows, x: Id)
    requires x in rows && rows[x].parent in rows && rows[x].messages > 0
    requires rows[x].source != "" && rows[rows[x].parent].source != "" && rows[x].source != rows[rows[x].parent].source
    ensures Shown(rows, x)
  {
    AloneIsShown(rows, x);
  }

  lemma {:induction false} AloneIsShown(rows: Rows, x: Id)
    requires x in rows && rows[x].messages > 0 && !Continues(rows, x)
    ensures Shown(rows, x)
  {
    assert At(rows, x, x, 1);
    assert InTree(rows, x, x);
    assert x in Tree(rows, x) && Importable(rows, x)(x);
  }

  /** Nor does a fork with messages, nor one whose parent is still open or was closed otherwise, ever vanish. */
  lemma {:induction false} ForkStandsAlone(rows: Rows, x: Id)
    requires x in rows && rows[x].messages > 0
    requires rows[x].forked || (rows[x].parent in rows && rows[rows[x].parent].endReason == OtherEnd)
    ensures Shown(rows, x)
  {
    AloneIsShown(rows, x);
  }

  /** A middle row without a source lets two sources meet in one conversation. */
  lemma {:induction false} MissingSourceBridges(head: Row, middle: Row, tail: Row)
    requires head.id == Sid("a") && head.parent == NoId && head.source == "telegram"
    requires middle.id == Sid("b") && middle.parent == head.id && middle.source == "" && !middle.forked
    requires tail.id == Sid("c") && tail.parent == middle.id && tail.source == "webui" && !tail.forked
    requires head.endReason == middle.endReason == Compression && head.endedAt == middle.endedAt == Absent
    ensures tail.id in Tree(map[head.id := head, middle.id := middle, tail.id := tail], head.id)
  {
    var rows := map[head.id := head, middle.id := middle, tail.id := tail];
    assert At(rows, head.id, head.id, 1);
    assert At(rows, head.id, middle.id, 2);
    assert At(rows, head.id, tail.id, 3);
  }

  // ----- what makes a tip the freshest, and a conversation the newest -----

  /**
    The emitted tip has messages, and no row with messages of the conversation is
    more recently active, nor equally so and deeper. Activity is the last activity,
    or the start where that is not a number.
   */
  lemma {:induction false} NothingFresher(rows: Rows, p: Projected, y: Id, e: nat, d: nat)
    requires Represents(rows, p) && y in rows && At(rows, HeadId(p), y, e) && rows[y].messages > 0
    requires rows[y].lastActivity.Number? && rows[y].lastActivity.value >= 0.0
    requires At(rows, HeadId(p), EmittedId(p), d)
    ensures rows[EmittedId(p)].messages > 0
    ensures var tip, best := rows[EmittedId(p)], rows[y].lastActivity.value;
            && (tip.lastActivity.Number? ==> tip.lastActivity.value >= best)
            && (tip.lastActivity == Number(best) ==> d >= e)
            && (!tip.lastActivity.Number? && tip.startedAt.Number? ==> tip.startedAt.value >= best)
            && (!tip.lastActivity.Number? && !tip.startedAt.Number? ==> best == 0.0)
  {
    assert Importable(rows, HeadId(p))(y);
    var f: nat :| Freshest(rows, HeadId(p), Importable(rows, HeadId(p)), EmittedId(p), f);
    DepthUnique(rows, HeadId(p), EmittedId(p), d, f);
  }

  // The row whose activity an emitted row shows, and the one whose start it keeps.
  function TipOf(p: Projected): Row
  {
    if p.Whole? then p.row else p.tip
  }

  function HeadOf(p: Projected): Row
  {
    if p.Whole? then p.row else p.head
  }

  /**
    Emitted rows stand by the activity of their tips, newest first; a tip without a
    numeric activity counts by the start of its conversation's head, and by 0 if
    that is no number either.
   */
  lemma {:induction false} NewestFirst(ps: seq<Projected>, i: nat, j: nat)
    requires Descending(ps) && i < j < |ps|
    ensures var a, b := TipOf(ps[i]).lastActivity, TipOf(ps[j]).lastActivity;
            var s, t := HeadOf(ps[i]).startedAt, HeadOf(ps[j]).startedAt;
            && (a.Number? && b.Number? ==> a.value >= b.value)
            && (!a.Number? && s.Number? && b.Number? ==> s.value >= b.value)
            && (a.Number? && !b.Number? && t.Number? ==> a.value >= t.value)
            && (!a.Number? && !b.Number? && s.Number? && t.Number? ==> s.value >= t.value)
            && (a.Number? && !b.Number? && !t.Number? ==> a.value >= 0.0)
            && (!a.Number? && !s.Number? && b.Number? ==> 0.0 >= b.value)
  {
    assert SortKey(ps[i]) >= SortKey(ps[j]);
  }
}
