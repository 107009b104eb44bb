/** The board component (client/src/components/notes/KanbanBoard.tsx): the cards the
    board holds, their grouping into columns, and what the two drag handlers do to the
    cards and which move request they send. React state updates are modelled as the new
    card list a handler produces; the request is returned beside it. */
module KanbanBoard {
  import opened Common
  import opened NoteSchema

  /** The parts of a card the handlers copy without looking at them. */
  datatype CardDetails = CardDetails(
    title: string,
    content: string,
    tags: Option<seq<string>>,
    dueDate: Option<string>,
    priority: int,
    createdAt: string,
    updatedAt: string,
    isArchived: bool,
    assignedTo: Option<string>)

  /** A note as the client holds it (client/src/types/note.ts). */
  datatype Card = Card(id: string, column: Column, order: int, details: CardDetails)

  /** The body of `PATCH /notes/:id/move`, with the id of the note. */
  datatype MoveRequest = MoveRequest(id: string, column: Column, order: int)

  /** The new card list after a drop, and the request the drop sends, if any. */
  datatype DropOutcome = DropOutcome(next: seq<Card>, request: Option<MoveRequest>)

  /** The three columns in the order the board draws them. */
  const BoardColumns: seq<Column> := [ToDo, InProgress, Done]

  /** `isColumnId`: whether a droppable's id names a column rather than a card. */
  function IsColumnId(id: string): (b: bool)
    ensures b <==> IsColumnName(id)
    ensures b ==> ParseColumn(id).Some? && ParseColumn(id).value in BoardColumns
  {
    id in ["To Do", "In Progress", "Done"]
  }

  function Ids(s: seq<Card>): (r: seq<string>)
    ensures |r| == |s| && forall j :: 0 <= j < |s| ==> r[j] == s[j].id
  {
    seq(|s|, j requires 0 <= j < |s| => s[j].id)
  }

  lemma IdsAppend(a: seq<Card>, b: seq<Card>)
    ensures Ids(a + b) == Ids(a) + Ids(b)
  {
  }

  /** `find` / `findIndex` by id: the first card carrying it. */
  function FindCard(s: seq<Card>, id: string): (r: Option<nat>)
    ensures r.Some? ==> r.value < |s| && s[r.value].id == id
    ensures r.None? <==> forall j :: 0 <= j < |s| ==> s[j].id != id
    ensures r.Some? ==> forall j :: 0 <= j < r.value ==> s[j].id != id
  {
    FirstIndex(s, (n: Card) => n.id == id)
  }

  function InColumn(c: Column): Card -> bool {
    (n: Card) => n.column == c
  }

  /** The cards of column `c` in the order of `s`. */
  function CardsIn(s: seq<Card>, c: Column): seq<Card> {
    Filter(s, InColumn(c))
  }

  /** A column's list holds cards of that column only, and every card of it. */
  lemma CardsInMembers(s: seq<Card>, c: Column)
    ensures forall i :: 0 <= i < |CardsIn(s, c)| ==> CardsIn(s, c)[i] in s && CardsIn(s, c)[i].column == c
    ensures forall j :: 0 <= j < |s| && s[j].column == c ==> s[j] in CardsIn(s, c)
  {
    FilterMembers(s, InColumn(c));
  }

  /** `notesByColumn`: one list per column, filled by walking the cards once. */
  method NotesByColumn(notes: seq<Card>) returns (mapping: map<Column, seq<Card>>)
    ensures mapping.Keys == {ToDo, InProgress, Done}
    ensures forall c :: c in mapping ==> mapping[c] == CardsIn(notes, c)
  {
    mapping := map[ToDo := [], InProgress := [], Done := []];
    for k := 0 to |notes|
      invariant mapping.Keys == {ToDo, InProgress, Done}
      invariant mapping[ToDo] == CardsIn(notes[..k], ToDo)
      invariant mapping[InProgress] == CardsIn(notes[..k], InProgress)
      invariant mapping[Done] == CardsIn(notes[..k], Done)
    {
      var note := notes[k];
      assert notes[..k + 1] == notes[..k] + [note];
      CardsInSnoc(notes[..k], note, ToDo);
      CardsInSnoc(notes[..k], note, InProgress);
      CardsInSnoc(notes[..k], note, Done);
      mapping := mapping[note.column := mapping[note.column] + [note]];
    }
    assert notes[..|notes|] == notes;
  }

  lemma CardsInSnoc(s: seq<Card>, x: Card, c: Column)
    ensures CardsIn(s + [x], c) == CardsIn(s, c) + (if x.column == c then [x] else [])
  {
    FilterAppend(s, [x], InColumn(c));
  }

  /** Every card lands in exactly one column list, so the three lists together hold the
      board's cards, each as often as on the board. */
  lemma {:induction false} ColumnsPartitionCards(notes: seq<Card>)
    ensures multiset(CardsIn(notes, ToDo)) + multiset(CardsIn(notes, InProgress)) + multiset(CardsIn(notes, Done))
            == multiset(notes)
  {
    if notes != [] {
      var x, rest := notes[0], notes[1..];
      ColumnsPartitionCards(rest);
      assert notes == [x] + rest;
      CardsInCons(x, rest, ToDo);
      CardsInCons(x, rest, InProgress);
      CardsInCons(x, rest, Done);
    }
  }

  lemma CardsInCons(x: Card, s: seq<Card>, c: Column)
    ensures multiset(CardsIn([x] + s, c)) == (if x.column == c then multiset{x} else multiset{}) + multiset(CardsIn(s, c))
  {
    assert ([x] + s)[0] == x && ([x] + s)[1..] == s;
  }

  /** `prevNotes.map(note => note.id === id ? { ...note, column: c } : note)`. */
  function Recolor(s: seq<Card>, id: string, c: Column): (r: seq<Card>)
    ensures |r| == |s|
    ensures forall j :: 0 <= j < |s| ==>
      r[j].id == s[j].id && r[j].order == s[j].order && r[j].details == s[j].details
    ensures forall j :: 0 <= j < |s| && s[j].id == id ==> r[j].column == c
    ensures forall j :: 0 <= j < |s| && s[j].id != id ==> r[j] == s[j]
  {
    seq(|s|, j requires 0 <= j < |s| => if s[j].id == id then s[j].(column := c) else s[j])
  }

  /** The column a drag ends over: the one a column id names, or the column of the card
      with that id. */
  function Target(s: seq<Card>, overId: string): (t: Option<Column>)
    ensures IsColumnId(overId) ==> t == ParseColumn(overId)
    ensures !IsColumnId(overId) ==> (t.None? <==> FindCard(s, overId).None?)
    ensures !IsColumnId(overId) && t.Some? ==> t.value == s[FindCard(s, overId).value].column
  {
    if IsColumnId(overId) then ParseColumn(overId)
    else match FindCard(s, overId)
      case None => None
      case Some(o) => Some(s[o].column)
  }

  /** Whether a drag of `activeId` over `over` acts at all. */
  predicate Acts(s: seq<Card>, activeId: string, over: Option<string>) {
    over.Some? && FindCard(s, activeId).Some? && Target(s, over.value).Some?
  }

  /** `handleDragOver`: when the card is dragged over another column (or a card in it),
      the card takes that column; nothing else changes and nothing is sent. */
  function DragOver(notes: seq<Card>, activeId: string, over: Option<string>): (r: seq<Card>)
    ensures |r| == |notes|
    ensures forall j :: 0 <= j < |notes| ==>
      r[j].id == notes[j].id && r[j].order == notes[j].order && r[j].details == notes[j].details
    ensures forall j :: 0 <= j < |notes| && notes[j].id != activeId ==> r[j] == notes[j]
    ensures !Acts(notes, activeId, over) ==> r == notes
    ensures Acts(notes, activeId, over) ==>
      r[FindCard(notes, activeId).value].column == Target(notes, over.value).value
  {
    if over.None? then notes
    else match FindCard(notes, activeId)
      case None => notes
      case Some(a) =>
        if IsColumnId(over.value) then
          var c := ParseColumn(over.value).value;
          if notes[a].column != c then Recolor(notes, activeId, c) else notes
        else match FindCard(notes, over.value)
          case None => notes
          case Some(o) =>
            if notes[a].column != notes[o].column then Recolor(notes, activeId, notes[o].column) else notes
  }

  /** Hovering twice over the same place is hovering once. */
  lemma DragOverIdempotent(notes: seq<Card>, activeId: string, over: Option<string>)
    ensures DragOver(DragOver(notes, activeId, over), activeId, over) == DragOver(notes, activeId, over)
  {
    var r := DragOver(notes, activeId, over);
    if Acts(notes, activeId, over) {
      var a := FindCard(notes, activeId).value;
      var t := Target(notes, over.value).value;
      FindCardSameIds(notes, r, activeId);
      FindCardSameIds(notes, r, over.value);
      assert r[a].column == t;
      if !IsColumnId(over.value) {
        var o := FindCard(notes, over.value).value;
        if notes[o].id != activeId {
          assert r[o] == notes[o];
        }
      }
      assert Target(r, over.value) == Some(t);
    }
  }

  /** Lookups by id see only the ids. */
  lemma FindCardSameIds(s1: seq<Card>, s2: seq<Card>, id: string)
    requires |s1| == |s2| && forall j :: 0 <= j < |s1| ==> s1[j].id == s2[j].id
    ensures FindCard(s1, id) == FindCard(s2, id)
  {
    var f1, f2 := FindCard(s1, id), FindCard(s2, id);
    if f1.Some? {
      assert s2[f1.value].id == id;
      assert f2.Some? && s1[f2.value].id == id;
    }
  }

  /** `splice(a, 1)` then `splice(o, 0, x)` on a copy: the card at `a` leaves, `x` enters
      at index `o` of the shortened list, and the cards between shift by one. */
  function Splice(s: seq<Card>, a: nat, o: nat, x: Card): (r: seq<Card>)
    requires a < |s| && o < |s|
    ensures |r| == |s| && r[o] == x
    ensures a < o ==>
      && (forall j :: 0 <= j < a ==> r[j] == s[j])
      && (forall j :: a <= j < o ==> r[j] == s[j + 1])
      && (forall j :: o < j < |s| ==> r[j] == s[j])
    ensures o < a ==>
      && (forall j :: 0 <= j < o ==> r[j] == s[j])
      && (forall j :: o < j <= a ==> r[j] == s[j - 1])
      && (forall j :: a < j < |s| ==> r[j] == s[j])
    ensures a == o ==> r == s[o := x]
  {
    var rest := s[..a] + s[a + 1..];
    rest[..o] + [x] + rest[o..]
  }

  /** Moving a card keeps every card id, each as often as before. */
  lemma SpliceKeepsIds(s: seq<Card>, a: nat, o: nat, x: Card)
    requires a < |s| && o < |s| && x.id == s[a].id
    ensures multiset(Ids(Splice(s, a, o, x))) == multiset(Ids(s))
  {
    var rest := s[..a] + s[a + 1..];
    InsertIds(rest[..o], rest[o..], x);
    assert rest[..o] + rest[o..] == rest;
    assert s == s[..a] + [s[a]] + s[a + 1..];
    InsertIds(s[..a], s[a + 1..], s[a]);
  }

  /** Putting `x` between `l` and `r` adds its id once. */
  lemma InsertIds(l: seq<Card>, r: seq<Card>, x: Card)
    ensures multiset(Ids(l + [x] + r)) == multiset(Ids(l + r)) + multiset{x.id}
  {
    IdsMultisetAppend(l + [x], r);
    IdsMultisetAppend(l, [x]);
    IdsMultisetAppend(l, r);
    assert Ids([x]) == [x.id];
  }

  lemma IdsMultisetAppend(a: seq<Card>, b: seq<Card>)
    ensures multiset(Ids(a + b)) == multiset(Ids(a)) + multiset(Ids(b))
  {
    IdsAppend(a, b);
  }

  /** A JavaScript array of cards, changed in place by `splice`. */
  class CardArray {
    var items: seq<Card>

    /** `[...prevNotes]`: a fresh copy. */
    constructor (items: seq<Card>)
      ensures this.items == items
    {
      this.items := items;
    }

    /** `splice(start, 1)`: drops the element at `start`; a start past the end drops nothing. */
    method RemoveAt(start: nat)
      modifies this
      ensures items == if start < |old(items)| then old(items)[..start] + old(items)[start + 1..] else old(items)
    {
      if start < |items| {
        items := items[..start] + items[start + 1..];
      }
    }

    /** `splice(start, 0, x)`: puts `x` before index `start`; a start past the end appends. */
    method InsertAt(start: nat, x: Card)
      modifies this
      ensures items == if start <= |old(items)| then old(items)[..start] + [x] + old(items)[start..] else old(items) + [x]
    {
      if start <= |items| {
        items := items[..start] + [x] + items[start..];
      } else {
        items := items + [x];
      }
    }
  }

  /** `handleDragEnd` step by step, with the active and over cards looked up in the list
      the update starts from. */
  method HandleDragEnd(notes: seq<Card>, activeId: string, over: Option<string>) returns (r: DropOutcome)
    ensures r == DragEnd(notes, activeId, over)
  {
    if over.None? {
      return DropOutcome(notes, None);
    }
    var found := FindCard(notes, activeId);
    if found.None? {
      return DropOutcome(notes, None);
    }
    var activeNote := notes[found.value];
    if IsColumnId(over.value) {
      var c := ParseColumn(over.value).value;
      return DropOutcome(Recolor(notes, activeId, c), Some(MoveRequest(activeNote.id, c, 0)));
    }
    var overFound := FindCard(notes, over.value);
    if overFound.None? {
      return DropOutcome(notes, None);
    }
    var overNote := notes[overFound.value];
    if activeId == overNote.id {
      return DropOutcome(notes, None);
    }
    var activeIndex := FindCard(notes, activeId).value;
    var overIndex := FindCard(notes, overNote.id).value;
    var newNotes := new CardArray(notes);
    newNotes.RemoveAt(activeIndex);
    newNotes.InsertAt(overIndex, activeNote.(column := overNote.column));
    var updated := ByIndex(newNotes.items, overNote.column);
    r := DropOutcome(updated, Some(MoveRequest(activeNote.id, overNote.column, overIndex)));
  }

  /** The renumbering as written: every card of column `c` gets its index in the whole
      list as its order. */
  function ByIndex(s: seq<Card>, c: Column): (r: seq<Card>)
    ensures |r| == |s|
    ensures forall j :: 0 <= j < |s| ==>
      r[j].id == s[j].id && r[j].column == s[j].column && r[j].details == s[j].details
    ensures forall j :: 0 <= j < |s| && s[j].column == c ==> r[j].order == j
    ensures forall j :: 0 <= j < |s| && s[j].column != c ==> r[j] == s[j]
  {
    seq(|s|, j requires 0 <= j < |s| => if s[j].column == c then s[j].(order := j) else s[j])
  }

  /** The whole-list numbering gives a card of `c` the number its column needs exactly
      when no card of another column comes before it. */
  lemma ByIndexAgreesWithRenumber(s: seq<Card>, c: Column, j: nat)
    requires j < |s| && s[j].column == c
    ensures ByIndex(s, c)[j].order == Renumber(s, c, 0)[j].order
        <==> forall i :: 0 <= i < j ==> s[i].column == c
  {
    RenumberRank(s, c, 0, j);
    FilterKeepsAllIff(s[..j], InColumn(c));
    assert forall i :: 0 <= i < j ==> s[..j][i] == s[i];
  }

  /** The renumbering a column needs: the cards of `c` get n, n+1, ... in list order. */
  function Renumber(s: seq<Card>, c: Column, n: int): (r: seq<Card>)
    ensures |r| == |s|
    ensures forall j :: 0 <= j < |s| ==>
      r[j].id == s[j].id && r[j].column == s[j].column && r[j].details == s[j].details
    ensures forall j :: 0 <= j < |s| && s[j].column != c ==> r[j] == s[j]
  {
    if s == [] then []
    else
      var head := if s[0].column == c then s[0].(order := n) else s[0];
      var rest := Renumber(s[1..], c, if s[0].column == c then n + 1 else n);
      assert forall j :: 1 <= j < |s| ==> s[j] == s[1..][j - 1];
      [head] + rest
  }

  /** After renumbering, column `c` read top to bottom is numbered n, n+1, ... */
  lemma {:induction false} RenumberNumbersColumn(s: seq<Card>, c: Column, n: int)
    ensures |CardsIn(Renumber(s, c, n), c)| == |CardsIn(s, c)|
    ensures forall i :: 0 <= i < |CardsIn(Renumber(s, c, n), c)| ==> CardsIn(Renumber(s, c, n), c)[i].order == n + i
  {
    if s != [] {
      var n' := if s[0].column == c then n + 1 else n;
      var rest := Renumber(s[1..], c, n');
      RenumberNumbersColumn(s[1..], c, n');
      var head := if s[0].column == c then s[0].(order := n) else s[0];
      assert Renumber(s, c, n) == [head] + rest;
      assert s == [s[0]] + s[1..];
      CardsInConsSeq(head, rest, c);
      CardsInConsSeq(s[0], s[1..], c);
      if s[0].column == c {
        var crest := CardsIn(rest, c);
        forall i | 0 <= i < 1 + |crest| ensures ([head] + crest)[i].order == n + i {
          if i > 0 {
            assert ([head] + crest)[i] == crest[i - 1];
          }
        }
      }
    }
  }

  lemma CardsInConsSeq(x: Card, s: seq<Card>, c: Column)
    ensures CardsIn([x] + s, c) == (if x.column == c then [x] else []) + CardsIn(s, c)
  {
    assert ([x] + s)[0] == x && ([x] + s)[1..] == s;
  }

  /** A card of `c` at index `j` gets `n` plus the number of `c` cards before it. */
  lemma {:induction false} RenumberRank(s: seq<Card>, c: Column, n: int, j: nat)
    requires j < |s| && s[j].column == c
    ensures Renumber(s, c, n)[j].order == n + |CardsIn(s[..j], c)|
  {
    if j == 0 {
      assert s[..0] == [];
    } else {
      var n' := if s[0].column == c then n + 1 else n;
      RenumberRank(s[1..], c, n', j - 1);
      assert Renumber(s, c, n)[j] == Renumber(s[1..], c, n')[j - 1];
      var p := s[..j];
      assert p[0] == s[0] && p[1..] == s[1..][..j - 1];
      assert CardsIn(p, c) == (if s[0].column == c then [s[0]] else []) + CardsIn(p[1..], c);
    }
  }

  /** A card of `c` is preceded by fewer `c` cards than the column holds. */
  lemma CountBefore(s: seq<Card>, c: Column, j: nat)
    requires j < |s| && s[j].column == c
    ensures |CardsIn(s[..j], c)| < |CardsIn(s, c)|
  {
    assert s == s[..j] + s[j..];
    FilterAppend(s[..j], s[j..], InColumn(c));
    assert s[j..][0] == s[j];
  }

  /** `handleDragEnd` as written. A drop on a column moves the card there and asks for
      order 0; a drop on another card splices the card to that card's index, gives every
      card of the target column its index in the whole list as its order, and asks for
      that card's index in the whole list as the order. */
  function DragEnd(notes: seq<Card>, activeId: string, over: Option<string>): (r: DropOutcome)
    ensures !Acts(notes, activeId, over) ==> r == DropOutcome(notes, None)
    ensures |r.next| == |notes|
    ensures r.request.Some? ==>
      && Acts(notes, activeId, over)
      && r.request.value.id == activeId && r.request.value.column == Target(notes, over.value).value
    ensures Acts(notes, activeId, over) && IsColumnId(over.value) ==>
      && r.next == Recolor(notes, activeId, Target(notes, over.value).value)
      && r.request == Some(MoveRequest(activeId, Target(notes, over.value).value, 0))
    ensures r.request.Some? && !IsColumnId(over.value) ==>
      var o := FindCard(notes, over.value).value;
      && r.request.value.order == o
      && r.next == ByIndex(Splice(notes, FindCard(notes, activeId).value, o,
                                  notes[FindCard(notes, activeId).value].(column := notes[o].column)),
                           notes[o].column)
    ensures r.request.Some? && !IsColumnId(over.value) ==>
      forall j :: 0 <= j < |r.next| && r.next[j].column == r.request.value.column ==> r.next[j].order == j
    ensures |r.next| == |notes| && multiset(Ids(r.next)) == multiset(Ids(notes))
  {
    if !Acts(notes, activeId, over) then DropOutcome(notes, None)
    else
      var a := FindCard(notes, activeId).value;
      if IsColumnId(over.value) then
        var c := ParseColumn(over.value).value;
        assert Ids(Recolor(notes, activeId, c)) == Ids(notes);
        DropOutcome(Recolor(notes, activeId, c), Some(MoveRequest(notes[a].id, c, 0)))
      else
        var o := FindCard(notes, over.value).value;
        if activeId == notes[o].id then DropOutcome(notes, None)
        else
          var t := notes[o].column;
          var spliced := Splice(notes, a, o, notes[a].(column := t));
          SpliceKeepsIds(notes, a, o, notes[a].(column := t));
          assert Ids(ByIndex(spliced, t)) == Ids(spliced);
          DropOutcome(ByIndex(spliced, t), Some(MoveRequest(notes[a].id, t, o)))
  }

  /** `handleDragEnd` with the drop on a card corrected: the target column is renumbered
      0, 1, ... in list order, and the request asks for the order the moved card got. */
  function DragEndFixed(notes: seq<Card>, activeId: string, over: Option<string>): (r: DropOutcome)
    ensures !Acts(notes, activeId, over) ==> r == DropOutcome(notes, None)
    ensures |r.next| == |notes|
    ensures r.request.Some? ==>
      && Acts(notes, activeId, over)
      && r.request.value.id == activeId && r.request.value.column == Target(notes, over.value).value
    ensures Acts(notes, activeId, over) && IsColumnId(over.value) ==>
      && r.next == Recolor(notes, activeId, Target(notes, over.value).value)
      && r.request == Some(MoveRequest(activeId, Target(notes, over.value).value, 0))
    ensures r.request.Some? && !IsColumnId(over.value) ==>
      var t := r.request.value.column;
      var o := FindCard(notes, over.value).value;
      && r.next[o].id == activeId && r.next[o].column == t
      && r.request.value.order == r.next[o].order
      && 0 <= r.request.value.order < |CardsIn(r.next, t)|
      && (forall i :: 0 <= i < |CardsIn(r.next, t)| ==> CardsIn(r.next, t)[i].order == i)
    ensures |r.next| == |notes| && multiset(Ids(r.next)) == multiset(Ids(notes))
  {
    if !Acts(notes, activeId, over) then DropOutcome(notes, None)
    else
      var a := FindCard(notes, activeId).value;
      if IsColumnId(over.value) then
        var c := ParseColumn(over.value).value;
        assert Ids(Recolor(notes, activeId, c)) == Ids(notes);
        DropOutcome(Recolor(notes, activeId, c), Some(MoveRequest(notes[a].id, c, 0)))
      else
        var o := FindCard(notes, over.value).value;
        if activeId == notes[o].id then DropOutcome(notes, None)
        else
          RenumberedDrop(notes, a, o)
  }

  /** The corrected drop of card `a` on card `o`: the moved card lands at `o`, the target
      column is numbered 0, 1, ... and the request carries the moved card's number. */
  function RenumberedDrop(notes: seq<Card>, a: nat, o: nat): (r: DropOutcome)
    requires a < |notes| && o < |notes|
    ensures r.request.Some?
    ensures r.request.value.id == notes[a].id && r.request.value.column == notes[o].column
    ensures |r.next| == |notes| && multiset(Ids(r.next)) == multiset(Ids(notes))
    ensures var t := notes[o].column;
      && r.next[o].id == notes[a].id && r.next[o].column == t
      && r.request.value.order == r.next[o].order
      && 0 <= r.request.value.order < |CardsIn(r.next, t)|
      && (forall i :: 0 <= i < |CardsIn(r.next, t)| ==> CardsIn(r.next, t)[i].order == i)
  {
    var t := notes[o].column;
    var spliced := Splice(notes, a, o, notes[a].(column := t));
    SpliceKeepsIds(notes, a, o, notes[a].(column := t));
    var next := Renumber(spliced, t, 0);
    assert Ids(next) == Ids(spliced);
    RenumberNumbersColumn(spliced, t, 0);
    RenumberRank(spliced, t, 0, o);
    CountBefore(spliced, t, o);
    DropOutcome(next, Some(MoveRequest(notes[a].id, t, next[o].order)))
  }

  /** A drop of a card on itself changes nothing and sends nothing (card ids are ObjectId
      texts, never column names). */
  lemma DropOnItselfIsNoOp(notes: seq<Card>, activeId: string)
    requires !IsColumnId(activeId)
    ensures DragEnd(notes, activeId, Some(activeId)) == DropOutcome(notes, None)
    ensures DragEndFixed(notes, activeId, Some(activeId)) == DropOutcome(notes, None)
  {
  }

  const PlainDetails: CardDetails := CardDetails("t", "c", None, None, 1, "", "", false, None)

  function CardAt(id: string, c: Column, order: int): Card {
    Card(id, c, order, PlainDetails)
  }

  /** What a drop of one card on another yields, in the terms of its two indices. */
  lemma DropOnCard(notes: seq<Card>, activeId: string, overId: string, a: nat, o: nat)
    requires !IsColumnId(overId)
    requires FindCard(notes, activeId) == Some(a) && FindCard(notes, overId) == Some(o)
    requires notes[o].id != activeId
    ensures var t := notes[o].column;
      var spliced := Splice(notes, a, o, notes[a].(column := t));
      && DragEnd(notes, activeId, Some(overId))
           == DropOutcome(ByIndex(spliced, t), Some(MoveRequest(activeId, t, o)))
      && DragEndFixed(notes, activeId, Some(overId))
           == DropOutcome(Renumber(spliced, t, 0), Some(MoveRequest(activeId, t, Renumber(spliced, t, 0)[o].order)))
  {
    assert Acts(notes, activeId, Some(overId));
  }

  /** The board as fetched: Done [d0, d1], then To Do [t0, t1]. */
  const Board: seq<Card> := [CardAt("d0", Done, 0), CardAt("d1", Done, 1), CardAt("t0", ToDo, 0), CardAt("t1", ToDo, 1)]

  /** The board after t0 is spliced to t1's index, before renumbering. */
  const Spliced: seq<Card> := [CardAt("d0", Done, 0), CardAt("d1", Done, 1), CardAt("t1", ToDo, 1), CardAt("t0", ToDo, 0)]

  lemma BoardLookups(notes: seq<Card>)
    requires notes == Board
    ensures FindCard(notes, "t0") == Some(2) && FindCard(notes, "t1") == Some(3)
    ensures !IsColumnId("t1") && notes[3].id != "t0" && notes[3].column == ToDo
    ensures notes[2].(column := ToDo) == notes[2]
  {
    assert notes[0].id == "d0" && notes[1].id == "d1" && notes[2].id == "t0" && notes[3].id == "t1";
    assert "d0" != "t0" && "d1" != "t0" && "d0" != "t1" && "d1" != "t1" && "t0" != "t1";
  }

  lemma BoardSplice(notes: seq<Card>)
    requires notes == Board
    ensures Splice(notes, 2, 3, notes[2]) == Spliced
  {
    var r := Splice(notes, 2, 3, notes[2]);
    assert r[0] == notes[0] && r[1] == notes[1] && r[2] == notes[3] && r[3] == notes[2];
  }

  lemma SplicedByIndex(s: seq<Card>)
    requires s == Spliced
    ensures ByIndex(s, ToDo) == [CardAt("d0", Done, 0), CardAt("d1", Done, 1), CardAt("t1", ToDo, 2), CardAt("t0", ToDo, 3)]
  {
    var r := ByIndex(s, ToDo);
    assert r[0] == s[0] && r[1] == s[1] && r[2] == s[2].(order := 2) && r[3] == s[3].(order := 3);
  }

  /** One step of `Renumber` on a list written as head and tail. */
  lemma RenumberCons(x: Card, s: seq<Card>, c: Column, n: int)
    ensures Renumber([x] + s, c, n)
      == [if x.column == c then x.(order := n) else x] + Renumber(s, c, if x.column == c then n + 1 else n)
  {
    assert ([x] + s)[1..] == s;
  }

  lemma SplicedRenumber(s: seq<Card>)
    requires s == Spliced
    ensures Renumber(s, ToDo, 0) == [CardAt("d0", Done, 0), CardAt("d1", Done, 1), CardAt("t1", ToDo, 0), CardAt("t0", ToDo, 1)]
  {
    var d0, d1, t1, t0 := s[0], s[1], s[2], s[3];
    assert s == [d0] + ([d1] + ([t1] + [t0]));
    assert [t0] == [t0] + [];
    RenumberCons(t0, [], ToDo, 1);
    RenumberCons(t1, [t0], ToDo, 0);
    RenumberCons(d1, [t1] + [t0], ToDo, 0);
    RenumberCons(d0, [d1] + ([t1] + [t0]), ToDo, 0);
  }

  lemma TwoCardsInToDo(s: seq<Card>)
    requires s == [CardAt("d0", Done, 0), CardAt("d1", Done, 1), CardAt("t1", ToDo, 2), CardAt("t0", ToDo, 3)]
    ensures |CardsIn(s, ToDo)| == 2
  {
    var s3, s2, s1 := s[3..], s[2..], s[1..];
    assert s3 == [CardAt("t0", ToDo, 3)] && s3[1..] == [];
    assert s2[0] == CardAt("t1", ToDo, 2) && s2[1..] == s3;
    assert s1[0] == CardAt("d1", Done, 1) && s1[1..] == s2;
    assert |CardsIn(s3, ToDo)| == 1;
    assert |CardsIn(s2, ToDo)| == 2;
    assert |CardsIn(s1, ToDo)| == 2;
  }

  /** Dropping t0 on t1 as written asks for order 3 in a column of two cards and numbers
      that column 2, 3. */
  lemma {:induction false} OverIndexIsGlobal()
    ensures var r := DragEnd(Board, "t0", Some("t1"));
      && r.next == [CardAt("d0", Done, 0), CardAt("d1", Done, 1), CardAt("t1", ToDo, 2), CardAt("t0", ToDo, 3)]
      && r.request == Some(MoveRequest("t0", ToDo, 3))
      && r.request.value.order >= |CardsIn(r.next, ToDo)|
  {
    BoardLookups(Board);
    DropOnCard(Board, "t0", "t1", 2, 3);
    BoardSplice(Board);
    SplicedByIndex(Spliced);
    TwoCardsInToDo(ByIndex(Spliced, ToDo));
  }

  /** The same drop, corrected: To Do is numbered 0, 1 and the request asks for order 1. */
  lemma {:induction false} OverIndexFixed()
    ensures DragEndFixed(Board, "t0", Some("t1"))
      == DropOutcome([CardAt("d0", Done, 0), CardAt("d1", Done, 1), CardAt("t1", ToDo, 0), CardAt("t0", ToDo, 1)],
                     Some(MoveRequest("t0", ToDo, 1)))
  {
    BoardLookups(Board);
    DropOnCard(Board, "t0", "t1", 2, 3);
    BoardSplice(Board);
    SplicedRenumber(Spliced);
  }
}
