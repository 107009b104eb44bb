/** The order bookkeeping of the notes service (server/src/notes/notes.service.ts), on the
    collection as a sequence of records: the tail order a new note gets, the two bulk shifts
    and the final write of `moveNote`, and what they do to the orders of a column. */
module NoteOrdering {
  import opened Common
  import opened NoteSchema

  /** The notes one shift predicate of `moveNote` scopes: `{ user, column }`. Archived notes
      are included, because no query of the service filters on `isArchived`. */
  predicate InPartition(n: Note, u: ObjectId, c: Column) {
    n.user == u && n.column == c
  }

  ghost function Partition(s: seq<Note>, u: ObjectId, c: Column): set<int> {
    set j | 0 <= j < |s| && InPartition(s[j], u, c)
  }

  /** The orders of `u`'s notes in column `c` are exactly 0 .. count-1: each lies in that
      range and no two notes share one (so, by counting, every value is taken). */
  ghost predicate Contiguous(s: seq<Note>, u: ObjectId, c: Column) {
    && (forall j :: 0 <= j < |s| && InPartition(s[j], u, c) ==> 0 <= s[j].order < |Partition(s, u, c)|)
    && Distinct(s, u, c)
  }

  predicate Distinct(s: seq<Note>, u: ObjectId, c: Column) {
    forall j1, j2 ::
      (0 <= j1 < |s| && 0 <= j2 < |s| && j1 != j2 && InPartition(s[j1], u, c) && InPartition(s[j2], u, c))
      ==> s[j1].order != s[j2].order
  }

  /** The largest order among `u`'s notes in `c`, archived ones included: what
      `findOne({ user, column }).sort('-order')` finds. */
  function MaxOrder(s: seq<Note>, u: ObjectId, c: Column): (m: Option<int>)
    ensures m.None? <==> forall j :: 0 <= j < |s| ==> !InPartition(s[j], u, c)
    ensures m.Some? ==> exists j :: 0 <= j < |s| && InPartition(s[j], u, c) && s[j].order == m.value
    ensures m.Some? ==> forall j :: 0 <= j < |s| && InPartition(s[j], u, c) ==> s[j].order <= m.value
  {
    if s == [] then None
    else
      var rest := MaxOrder(s[1..], u, c);
      assert forall j :: 1 <= j < |s| ==> s[j] == s[1..][j - 1];
      if !InPartition(s[0], u, c) then
        assert rest.Some? ==> exists j :: 1 <= j < |s| && InPartition(s[j], u, c) && s[j].order == rest.value by {
          if rest.Some? {
            var j' :| 0 <= j' < |s[1..]| && InPartition(s[1..][j'], u, c) && s[1..][j'].order == rest.value;
            assert s[j' + 1] == s[1..][j'];
          }
        }
        rest
      else if rest.None? || rest.value < s[0].order then
        Some(s[0].order)
      else
        assert exists j :: 1 <= j < |s| && InPartition(s[j], u, c) && s[j].order == rest.value by {
          var j' :| 0 <= j' < |s[1..]| && InPartition(s[1..][j'], u, c) && s[1..][j'].order == rest.value;
          assert s[j' + 1] == s[1..][j'];
        }
        rest
  }

  /** The order `create` gives a new note: one past the largest, or 0 for an empty column. */
  function TailOrder(s: seq<Note>, u: ObjectId, c: Column): (t: int)
    ensures forall j :: 0 <= j < |s| && InPartition(s[j], u, c) ==> s[j].order < t
    ensures MaxOrder(s, u, c).None? ==> t == 0
    ensures MaxOrder(s, u, c).Some? ==> exists j :: 0 <= j < |s| && InPartition(s[j], u, c) && s[j].order == t - 1
  {
    match MaxOrder(s, u, c)
    case None => 0
    case Some(m) => m + 1
  }

  /** `updateMany({ user: u, column: c, order: { $gt: o } }, { $inc: { order: -1 } })`;
      Mongoose's timestamps also stamp `updatedAt` on every matched note. */
  function CloseGap(s: seq<Note>, u: ObjectId, c: Column, o: int, now: int): (r: seq<Note>)
    ensures |r| == |s|
  {
    seq(|s|, j requires 0 <= j < |s| =>
      if InPartition(s[j], u, c) && s[j].order > o then s[j].(order := s[j].order - 1, updatedAt := now)
      else s[j])
  }

  /** The gap-closing shift moves exactly the partition's notes above `o`, each down by one
      with a fresh stamp, and regroups nothing. */
  lemma CloseGapEffect(s: seq<Note>, u: ObjectId, c: Column, o: int, now: int)
    ensures var r := CloseGap(s, u, c, o, now);
      forall j :: 0 <= j < |s| ==>
        && r[j].id == s[j].id && r[j].user == s[j].user && r[j].column == s[j].column
        && (InPartition(s[j], u, c) && s[j].order > o ==> r[j].order == s[j].order - 1 && r[j].updatedAt == now)
        && (!(InPartition(s[j], u, c) && s[j].order > o) ==> r[j] == s[j])
  {
  }

  /** `updateMany({ user: u, column: c, order: { $gte: k } }, { $inc: { order: 1 } })`. */
  function OpenSlot(s: seq<Note>, u: ObjectId, c: Column, k: int, now: int): (r: seq<Note>)
    ensures |r| == |s|
  {
    seq(|s|, j requires 0 <= j < |s| =>
      if InPartition(s[j], u, c) && s[j].order >= k then s[j].(order := s[j].order + 1, updatedAt := now)
      else s[j])
  }

  /** The slot-opening shift moves exactly the partition's notes at or above `k`, each up
      by one with a fresh stamp, and regroups nothing. */
  lemma OpenSlotEffect(s: seq<Note>, u: ObjectId, c: Column, k: int, now: int)
    ensures var r := OpenSlot(s, u, c, k, now);
      forall j :: 0 <= j < |s| ==>
        && r[j].id == s[j].id && r[j].user == s[j].user && r[j].column == s[j].column
        && (InPartition(s[j], u, c) && s[j].order >= k ==> r[j].order == s[j].order + 1 && r[j].updatedAt == now)
        && (!(InPartition(s[j], u, c) && s[j].order >= k) ==> r[j] == s[j])
  {
  }

  /** The committed effect of `moveNote` on the note at index `i` (already found by id and
      user): close the gap in its column, open a slot in column `t` at `k`, then write the
      loaded note back with its new column and order. One algorithm for both kinds of move. */
  function MoveEffect(s: seq<Note>, i: nat, t: Column, k: int, now: int): (r: seq<Note>)
    requires i < |s|
    ensures |r| == |s|
    ensures r[i].id == s[i].id && r[i].user == s[i].user && r[i].column == t && r[i].order == k
  {
    var note := s[i];
    var closed := CloseGap(s, note.user, note.column, note.order, now);
    var slotted := OpenSlot(closed, note.user, t, k, now);
    slotted[i := note.(column := t, order := k, updatedAt := now)]
  }

  /** What the move does to the moved note and to every note of another user or of a
      column the move does not touch; and that only `order` and `updatedAt` ever change. */
  lemma MoveFrame(s: seq<Note>, i: nat, t: Column, k: int, now: int)
    requires i < |s|
    ensures MoveEffect(s, i, t, k, now)[i] == s[i].(column := t, order := k, updatedAt := now)
    ensures forall j ::
      (0 <= j < |s| && j != i && (s[j].user != s[i].user || (s[j].column != s[i].column && s[j].column != t)))
      ==> MoveEffect(s, i, t, k, now)[j] == s[j]
    ensures forall j :: 0 <= j < |s| && j != i ==>
      MoveEffect(s, i, t, k, now)[j] == s[j].(order := MoveEffect(s, i, t, k, now)[j].order,
                                              updatedAt := MoveEffect(s, i, t, k, now)[j].updatedAt)
  {
  }

  /** Gap close, for a move to another column: each later sibling in the old column comes
      down by exactly one; the earlier ones are untouched. */
  lemma CrossMoveOldColumn(s: seq<Note>, i: nat, t: Column, k: int, now: int)
    requires i < |s| && s[i].column != t
    ensures forall j :: 0 <= j < |s| && j != i && InPartition(s[j], s[i].user, s[i].column) ==>
      MoveEffect(s, i, t, k, now)[j] ==
        if s[j].order > s[i].order then s[j].(order := s[j].order - 1, updatedAt := now) else s[j]
  {
  }

  /** Slot open, for a move to another column: each sibling at or after `k` in the target
      column goes up by exactly one; the ones before it are untouched. */
  lemma CrossMoveTargetColumn(s: seq<Note>, i: nat, t: Column, k: int, now: int)
    requires i < |s| && s[i].column != t
    ensures forall j :: 0 <= j < |s| && j != i && InPartition(s[j], s[i].user, t) ==>
      MoveEffect(s, i, t, k, now)[j] ==
        if s[j].order >= k then s[j].(order := s[j].order + 1, updatedAt := now) else s[j]
  {
  }

  /** The order a sibling ends with after a same-column move from `o` to `k`, in the terms
      of a reorder: moving forward pulls the notes in (o, k] back by one, moving backward
      pushes the notes in [k, o) on by one, every other order stays. */
  function BetweenShift(x: int, o: int, k: int): int {
    if o < x <= k then x - 1
    else if k <= x < o then x + 1
    else x
  }

  /** For a move within one column, the two shifts together move exactly the siblings
      between the old and the new position, by one towards the vacated slot. */
  lemma SameColumnMove(s: seq<Note>, i: nat, k: int, now: int)
    requires i < |s|
    ensures forall j ::
      (0 <= j < |s| && j != i && InPartition(s[j], s[i].user, s[i].column) && s[j].order != s[i].order)
      ==> MoveEffect(s, i, s[i].column, k, now)[j].order == BetweenShift(s[j].order, s[i].order, k)
  {
  }

  /** Contiguity of the old column after a move to another column. */
  lemma {:induction false} CrossMoveKeepsOldColumn(s: seq<Note>, i: nat, t: Column, k: int, now: int)
    requires i < |s| && s[i].column != t
    requires Contiguous(s, s[i].user, s[i].column)
    ensures Contiguous(MoveEffect(s, i, t, k, now), s[i].user, s[i].column)
  {
    var r := MoveEffect(s, i, t, k, now);
    var u, a, o := s[i].user, s[i].column, s[i].order;
    MoveFrame(s, i, t, k, now);
    CrossMoveOldColumn(s, i, t, k, now);
    assert Partition(r, u, a) == Partition(s, u, a) - {i};
    assert i in Partition(s, u, a);
    forall j | 0 <= j < |r| && InPartition(r[j], u, a)
      ensures 0 <= r[j].order < |Partition(r, u, a)|
    {
      assert InPartition(s[j], u, a) && s[j].order != o;
    }
    forall j1, j2 | 0 <= j1 < |r| && 0 <= j2 < |r| && j1 != j2 && InPartition(r[j1], u, a) && InPartition(r[j2], u, a)
      ensures r[j1].order != r[j2].order
    {
      assert InPartition(s[j1], u, a) && InPartition(s[j2], u, a);
      assert s[j1].order != s[j2].order && s[j1].order != o && s[j2].order != o;
    }
  }

  /** Contiguity of the target column after a move from another column. */
  lemma {:induction false} CrossMoveKeepsTargetColumn(s: seq<Note>, i: nat, t: Column, k: int, now: int)
    requires i < |s| && s[i].column != t
    requires Contiguous(s, s[i].user, t)
    requires 0 <= k <= |Partition(s, s[i].user, t)|
    ensures Contiguous(MoveEffect(s, i, t, k, now), s[i].user, t)
  {
    MoveFrame(s, i, t, k, now);
    CrossMoveTargetColumn(s, i, t, k, now);
    EntryKeepsContiguity(s, MoveEffect(s, i, t, k, now), i, s[i].user, t, k);
  }

  /** A column stays contiguous when a note from outside enters it at `k` and the notes at
      or above `k` move up by one. */
  lemma {:induction false} EntryKeepsContiguity(s: seq<Note>, r: seq<Note>, i: nat, u: ObjectId, t: Column, k: int)
    requires i < |s| == |r| && !InPartition(s[i], u, t) && InPartition(r[i], u, t) && r[i].order == k
    requires forall j :: 0 <= j < |s| && j != i ==> r[j].user == s[j].user && r[j].column == s[j].column
    requires forall j :: 0 <= j < |s| && j != i && InPartition(s[j], u, t) ==>
      r[j].order == if s[j].order >= k then s[j].order + 1 else s[j].order
    requires Contiguous(s, u, t)
    requires 0 <= k <= |Partition(s, u, t)|
    ensures Contiguous(r, u, t)
  {
    assert Partition(r, u, t) == Partition(s, u, t) + {i};
    assert i !in Partition(s, u, t);
    forall j | 0 <= j < |r| && InPartition(r[j], u, t)
      ensures 0 <= r[j].order < |Partition(r, u, t)|
      ensures j != i ==> r[j].order != k
    {
      if j != i { assert InPartition(s[j], u, t); }
    }
    forall j1, j2 | 0 <= j1 < |r| && 0 <= j2 < |r| && j1 != j2 && InPartition(r[j1], u, t) && InPartition(r[j2], u, t)
      ensures r[j1].order != r[j2].order
    {
      if j1 != i && j2 != i {
        assert InPartition(s[j1], u, t) && InPartition(s[j2], u, t);
        assert s[j1].order != s[j2].order;
      }
    }
  }

  /** Contiguity of the column after a reorder within it. */
  lemma {:induction false} SameColumnMoveKeepsColumn(s: seq<Note>, i: nat, k: int, now: int)
    requires i < |s|
    requires Contiguous(s, s[i].user, s[i].column)
    requires 0 <= k < |Partition(s, s[i].user, s[i].column)|
    ensures Contiguous(MoveEffect(s, i, s[i].column, k, now), s[i].user, s[i].column)
  {
    var u, a, o := s[i].user, s[i].column, s[i].order;
    var r := MoveEffect(s, i, a, k, now);
    MoveFrame(s, i, a, k, now);
    SameColumnMove(s, i, k, now);
    assert Partition(r, u, a) == Partition(s, u, a);
    assert i in Partition(s, u, a);
    forall j | 0 <= j < |r| && InPartition(r[j], u, a)
      ensures 0 <= r[j].order < |Partition(r, u, a)|
      ensures j != i ==> r[j].order != k && r[j].order == BetweenShift(s[j].order, o, k)
    {
      if j != i { assert InPartition(s[j], u, a) && s[j].order != o; }
    }
    forall j1, j2 | 0 <= j1 < |r| && 0 <= j2 < |r| && j1 != j2 && InPartition(r[j1], u, a) && InPartition(r[j2], u, a)
      ensures r[j1].order != r[j2].order
    {
      if j1 != i && j2 != i {
        assert InPartition(s[j1], u, a) && InPartition(s[j2], u, a);
        assert s[j1].order != s[j2].order && s[j1].order != o && s[j2].order != o;
      }
    }
  }

  /** The key property: when the old and the target column are contiguous and the target
      order is at most the number of other notes in the target column, the move leaves
      both columns contiguous, for a cross-column move and for a reorder alike. */
  lemma MovePreservesContiguity(s: seq<Note>, i: nat, t: Column, k: int, now: int)
    requires i < |s|
    requires Contiguous(s, s[i].user, s[i].column) && Contiguous(s, s[i].user, t)
    requires 0 <= k <= |Partition(s, s[i].user, t) - {i}|
    ensures Contiguous(MoveEffect(s, i, t, k, now), s[i].user, s[i].column)
    ensures Contiguous(MoveEffect(s, i, t, k, now), s[i].user, t)
  {
    if s[i].column == t {
      assert i in Partition(s, s[i].user, t);
      SameColumnMoveKeepsColumn(s, i, k, now);
    } else {
      assert i !in Partition(s, s[i].user, t);
      assert Partition(s, s[i].user, t) - {i} == Partition(s, s[i].user, t);
      CrossMoveKeepsOldColumn(s, i, t, k, now);
      CrossMoveKeepsTargetColumn(s, i, t, k, now);
    }
  }

  /** Columns that are neither the old nor the target one keep their notes and orders. */
  lemma MoveLeavesOtherColumns(s: seq<Note>, i: nat, t: Column, k: int, now: int, c: Column)
    requires i < |s| && c != s[i].column && c != t
    ensures Partition(MoveEffect(s, i, t, k, now), s[i].user, c) == Partition(s, s[i].user, c)
    ensures forall j :: j in Partition(s, s[i].user, c) ==> MoveEffect(s, i, t, k, now)[j] == s[j]
  {
    MoveFrame(s, i, t, k, now);
  }

  /** A move of `u`'s note never changes a note of another user: both shifts are scoped
      by `user`. */
  lemma MoveIsolatesUsers(s: seq<Note>, i: nat, t: Column, k: int, now: int)
    requires i < |s|
    ensures forall j :: 0 <= j < |s| && s[j].user != s[i].user ==> MoveEffect(s, i, t, k, now)[j] == s[j]
  {
    MoveFrame(s, i, t, k, now);
  }

  /** Moving a note to its own column and order changes no column and no order, provided no
      sibling shares its order (otherwise that sibling is pushed one on). */
  lemma {:induction false} MoveInPlaceKeepsOrders(s: seq<Note>, i: nat, now: int)
    requires i < |s|
    requires forall j :: 0 <= j < |s| && j != i && InPartition(s[j], s[i].user, s[i].column) ==>
      s[j].order != s[i].order
    ensures forall j :: 0 <= j < |s| ==>
      MoveEffect(s, i, s[i].column, s[i].order, now)[j].order == s[j].order &&
      MoveEffect(s, i, s[i].column, s[i].order, now)[j].column == s[j].column
  {
    MoveFrame(s, i, s[i].column, s[i].order, now);
    SameColumnMove(s, i, s[i].order, now);
  }

  /** Appending a note at the tail order keeps a contiguous column contiguous: the
      largest order is below the count, so one past it is at most the count. */
  lemma {:induction false} CreateAtTailPreservesContiguity(s: seq<Note>, n: Note)
    requires Contiguous(s, n.user, n.column)
    requires n.order == TailOrder(s, n.user, n.column)
    ensures Contiguous(s + [n], n.user, n.column)
  {
    var u, c := n.user, n.column;
    var s' := s + [n];
    AppendPartition(s, n);
    BelowTail(s, u, c);
    var p, p' := Partition(s, u, c), Partition(s', u, c);
    forall j | 0 <= j < |s'| && InPartition(s'[j], u, c)
      ensures 0 <= s'[j].order < |p'|
    {
      if j < |s| { assert s'[j] == s[j]; assert j in p; }
    }
    forall j1, j2 | 0 <= j1 < |s'| && 0 <= j2 < |s'| && j1 != j2 && InPartition(s'[j1], u, c) && InPartition(s'[j2], u, c)
      ensures s'[j1].order != s'[j2].order
    {
      if j1 < |s| && j2 < |s| {
        assert s'[j1] == s[j1] && s'[j2] == s[j2];
      } else if j1 < |s| {
        assert s'[j1] == s[j1];
        assert j1 in p;
      } else {
        assert s'[j2] == s[j2];
        assert j2 in p;
      }
    }
  }

  lemma AppendPartition(s: seq<Note>, n: Note)
    ensures Partition(s + [n], n.user, n.column) == Partition(s, n.user, n.column) + {|s|}
    ensures |Partition(s + [n], n.user, n.column)| == |Partition(s, n.user, n.column)| + 1
  {
    var s' := s + [n];
    forall j ensures j in Partition(s', n.user, n.column) <==> j in Partition(s, n.user, n.column) || j == |s| {
      if 0 <= j < |s| { assert s'[j] == s[j]; }
    }
    assert |s| !in Partition(s, n.user, n.column);
  }

  /** In a contiguous column every order lies below the tail order, which is at most the count. */
  lemma BelowTail(s: seq<Note>, u: ObjectId, c: Column)
    requires Contiguous(s, u, c)
    ensures forall j :: j in Partition(s, u, c) ==> s[j].order < TailOrder(s, u, c)
    ensures 0 <= TailOrder(s, u, c) <= |Partition(s, u, c)|
  {
    var m := MaxOrder(s, u, c);
    if m.Some? {
      var top :| 0 <= top < |s| && InPartition(s[top], u, c) && s[top].order == m.value;
      assert top in Partition(s, u, c);
    }
  }
}
