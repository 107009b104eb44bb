/** Worked moves on small boards: what `moveNote` does to the orders in a few concrete
    cases, including a target order past the end of its column and a deletion. */
module NoteExamples {
  import opened Common
  import opened NoteSchema
  import opened NoteOrdering

  const Owner: ObjectId := ObjectId("u")

  function Sample(id: string, c: Column, order: int): Note {
    Note(ObjectId(id), "t", "c", Owner, c, order, [], None, false, None, None, 0, 0)
  }

  /** Where each note of a board is: its column and order, in store order. */
  function Placement(s: seq<Note>): (p: seq<(Column, int)>)
    ensures |p| == |s|
  {
    seq(|s|, j requires 0 <= j < |s| => (s[j].column, s[j].order))
  }

  /** Column A = [n0, n1, n2], column B = [m0]; moving n1 to the top of B gives
      A = [n0, n2] and B = [n1, m0]. */
  lemma CrossColumnExample()
    ensures var s := [Sample("n0", ToDo, 0), Sample("n1", ToDo, 1), Sample("n2", ToDo, 2), Sample("m0", InProgress, 0)];
      Placement(MoveEffect(s, 1, InProgress, 0, 7))
        == [(ToDo, 0), (InProgress, 0), (ToDo, 1), (InProgress, 1)]
  {
  }

  /** [a, b, c, d]; moving a to order 2 gives [b, c, a, d]. */
  lemma MoveDownExample()
    ensures var s := [Sample("a", ToDo, 0), Sample("b", ToDo, 1), Sample("c", ToDo, 2), Sample("d", ToDo, 3)];
      Placement(MoveEffect(s, 0, ToDo, 2, 7)) == [(ToDo, 2), (ToDo, 0), (ToDo, 1), (ToDo, 3)]
  {
  }

  /** [a, b, c, d]; moving d to order 1 gives [a, d, b, c]. */
  lemma MoveUpExample()
    ensures var s := [Sample("a", ToDo, 0), Sample("b", ToDo, 1), Sample("c", ToDo, 2), Sample("d", ToDo, 3)];
      Placement(MoveEffect(s, 3, ToDo, 1, 7)) == [(ToDo, 0), (ToDo, 2), (ToDo, 3), (ToDo, 1)]
  {
  }

  /** The order is only bounded below, so a move to order 3 in a column of two notes is
      carried out and leaves the column with orders {0, 3}. */
  lemma {:induction false} PastTheEndBreaksContiguity()
    ensures var s := [Sample("t0", ToDo, 0), Sample("t1", ToDo, 1)];
      && Contiguous(s, Owner, ToDo)
      && Placement(MoveEffect(s, 0, ToDo, 3, 7)) == [(ToDo, 3), (ToDo, 0)]
      && !Contiguous(MoveEffect(s, 0, ToDo, 3, 7), Owner, ToDo)
  {
    var s := [Sample("t0", ToDo, 0), Sample("t1", ToDo, 1)];
    assert Partition(s, Owner, ToDo) == {0, 1};
    var r := MoveEffect(s, 0, ToDo, 3, 7);
    assert Partition(r, Owner, ToDo) == {0, 1};
    assert InPartition(r[0], Owner, ToDo) && r[0].order == 3;
  }

  /** `remove` shifts nothing: deleting the middle note of [a, b, c] leaves orders {0, 2}. */
  lemma {:induction false} RemoveLeavesGap()
    ensures var s := [Sample("a", ToDo, 0), Sample("b", ToDo, 1), Sample("c", ToDo, 2)];
      && Contiguous(s, Owner, ToDo)
      && !Contiguous(s[..1] + s[2..], Owner, ToDo)
  {
    var s := [Sample("a", ToDo, 0), Sample("b", ToDo, 1), Sample("c", ToDo, 2)];
    assert Partition(s, Owner, ToDo) == {0, 1, 2};
    var r := s[..1] + s[2..];
    assert Partition(r, Owner, ToDo) == {0, 1};
    assert InPartition(r[1], Owner, ToDo) && r[1].order == 2;
  }
}
