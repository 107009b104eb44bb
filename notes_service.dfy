/** The notes service (server/src/notes/notes.service.ts) over one notes collection, held
    as a sequence of records in the collection's natural (insertion) order. Each service
    call is one atomic step; storage failures other than the service's own NotFound are
    not modelled. */
module Notes {
  import opened Common
  import opened NoteSchema
  import opened NoteDto
  import opened NoteOrdering

  datatype NotesError = NotFound(message: string) | ValidationFailed(paths: set<string>)

  const NoteNotFound: string := "Note not found"

  predicate Matches(n: Note, id: ObjectId, u: ObjectId) {
    n.id == id && n.user == u
  }

  /** The position of the note `findOne({ _id: id, user: u })` finds, if any. */
  function FindIndex(s: seq<Note>, id: ObjectId, u: ObjectId): (r: Option<nat>)
    ensures r.Some? ==> r.value < |s| && Matches(s[r.value], id, u)
    ensures r.None? <==> forall j :: 0 <= j < |s| ==> !Matches(s[j], id, u)
    ensures r.Some? ==> forall j :: 0 <= j < r.value ==> !Matches(s[j], id, u)
  {
    FirstIndex(s, (n: Note) => Matches(n, id, u))
  }

  predicate UniqueIds(s: seq<Note>) {
    forall j1, j2 :: 0 <= j1 < j2 < |s| ==> s[j1].id != s[j2].id
  }

  /** The rank of a column in MongoDB's ascending sort on the stored column name, which
      compares the strings: "Done" < "In Progress" < "To Do". */
  function ColumnRank(c: Column): (r: int)
    ensures 0 <= r < 3 && ColumnName(c) == ["Done", "In Progress", "To Do"][r]
  {
    match c
    case Done => 0
    case InProgress => 1
    case ToDo => 2
  }

  /** Lexicographic comparison of two strings by character code. */
  predicate StringLess(a: string, b: string) {
    if a == [] then b != []
    else if b == [] then false
    else if a[0] != b[0] then a[0] < b[0]
    else StringLess(a[1..], b[1..])
  }

  lemma {:induction false} StringLessIrreflexive(s: string)
    ensures !StringLess(s, s)
  {
    if s != [] {
      StringLessIrreflexive(s[1..]);
    }
  }

  lemma ColumnRankIsNameOrder(c1: Column, c2: Column)
    ensures ColumnRank(c1) < ColumnRank(c2) <==> StringLess(ColumnName(c1), ColumnName(c2))
  {
    if c1 == c2 {
      StringLessIrreflexive(ColumnName(c1));
    } else {
      assert ColumnName(Done)[0] == 'D' && ColumnName(InProgress)[0] == 'I' && ColumnName(ToDo)[0] == 'T';
    }
  }

  /** `sort({ column: 1, order: 1 })`. */
  function BoardKey(n: Note): Key { Key(ColumnRank(n.column), n.order) }

  /** `sort({ updatedAt: -1 })`: the most recently updated note first. */
  function ArchiveKey(n: Note): Key { Key(-n.updatedAt, 0) }

  /** The board key orders by column name, and by order within one column. */
  lemma BoardKeyOrder(a: Note, b: Note)
    ensures KeyLe(BoardKey(a), BoardKey(b)) <==>
      StringLess(ColumnName(a.column), ColumnName(b.column)) || (a.column == b.column && a.order <= b.order)
  {
    ColumnRankIsNameOrder(a.column, b.column);
  }

  /** The archive key puts a later update first. */
  lemma ArchiveKeyOrder(a: Note, b: Note)
    ensures KeyLe(ArchiveKey(a), ArchiveKey(b)) <==> a.updatedAt >= b.updatedAt
  {
  }

  /** What `update` writes with `findOneAndUpdate`: every field the body carries, and the
      `updatedAt` stamp; absent fields are left as they are. An accepted body carries no
      due date, so the stored one is kept. The body has no column and no order, so an
      update never changes a note's identity, owner, position or archived flag. */
  function ApplyUpdate(n: Note, d: UpdateNoteDto, now: int): (m: Note)
    requires UpdateErrors(d) == {}
    ensures m.id == n.id && m.user == n.user && m.column == n.column && m.order == n.order
    ensures m.isArchived == n.isArchived && m.dueDate == n.dueDate && m.createdAt == n.createdAt
    ensures m.updatedAt == now
    ensures m.title == (if d.title.Some? then d.title.value else n.title)
    ensures m.content == (if d.content.Some? then d.content.value else n.content)
    ensures m.tags == (if d.tags.Some? then d.tags.value else n.tags)
    ensures m.priority == (if d.priority.Some? then d.priority else n.priority)
    ensures m.assignedTo == (if d.assignedTo.Some? then d.assignedTo else n.assignedTo)
    ensures PriorityInRange(n.priority) ==> PriorityInRange(m.priority)
  {
    n.(title := if d.title.Some? then d.title.value else n.title,
       content := if d.content.Some? then d.content.value else n.content,
       tags := if d.tags.Some? then d.tags.value else n.tags,
       priority := if d.priority.Some? then d.priority else n.priority,
       assignedTo := if d.assignedTo.Some? then d.assignedTo else n.assignedTo,
       updatedAt := now)
  }

  /** Sending the same body again only moves the timestamp. */
  lemma UpdateTwice(n: Note, d: UpdateNoteDto, t1: int, t2: int)
    requires UpdateErrors(d) == {}
    ensures ApplyUpdate(ApplyUpdate(n, d, t1), d, t2) == ApplyUpdate(n, d, t2)
  {
  }

  /** A sorted selection holds exactly the selected notes. */
  lemma SortedSelection(s: seq<Note>, p: Note -> bool, key: Note -> Key)
    ensures var r := SortBy(Filter(s, p), key);
      && |r| <= |s|
      && (forall j :: 0 <= j < |r| ==> r[j] in s && p(r[j]))
      && (forall j :: 0 <= j < |s| && p(s[j]) ==> s[j] in r)
      && (forall x :: multiset(r)[x] == if p(x) then multiset(s)[x] else 0)
  {
    var mine := Filter(s, p);
    FilterMembers(s, p);
    FilterCounts(s, p);
    var r := SortBy(mine, key);
    assert |r| == |multiset(r)| == |multiset(mine)| == |mine|;
    forall j | 0 <= j < |r| ensures r[j] in mine {
      assert r[j] in multiset(r);
    }
    forall j | 0 <= j < |mine| ensures mine[j] in r {
      assert mine[j] in multiset(mine);
    }
  }

  /** Ascending by `-updatedAt` is descending by `updatedAt`. */
  lemma ArchiveOrderDescends(r: seq<Note>)
    requires SortedBy(r, ArchiveKey)
    ensures forall j1, j2 :: 0 <= j1 < j2 < |r| ==> r[j1].updatedAt >= r[j2].updatedAt
  {
    forall j1, j2 | 0 <= j1 < j2 < |r| ensures r[j1].updatedAt >= r[j2].updatedAt {
      assert KeyLe(ArchiveKey(r[j1]), ArchiveKey(r[j2]));
    }
  }

  class NotesService {
    var notes: seq<Note>

    /** Ids are unique; orders are never negative; a present priority lies in 1 .. 5.
        Nothing makes `(user, column, order)` unique: the schema's index on those fields
        is not declared unique. */
    ghost predicate Valid()
      reads this
    {
      && UniqueIds(notes)
      && (forall j :: 0 <= j < |notes| ==> notes[j].order >= 0)
      && (forall j :: 0 <= j < |notes| ==> PriorityInRange(notes[j].priority))
    }

    constructor ()
      ensures Valid() && notes == []
    {
      notes := [];
    }

    /** `create`: the note goes to the tail of its column, at one past the largest order
        among the user's notes there (archived ones included), or at 0. `id` is the fresh
        ObjectId Mongoose assigns. The save fails when a required string is empty. An
        accepted body carries no due date, so the note is created without one. */
    method Create(dto: CreateNoteDto, userId: ObjectId, id: ObjectId, now: int) returns (r: Result<Note, NotesError>)
      requires Valid() && CreateErrors(dto) == {}
      requires forall j :: 0 <= j < |notes| ==> notes[j].id != id
      modifies this
      ensures Valid()
      ensures r.Ok? <==> dto.title != "" && dto.content != ""
      ensures r.Err? ==> notes == old(notes) && r.error.ValidationFailed?
      ensures r.Ok? ==> notes == old(notes) + [r.value]
      ensures r.Ok? ==> && r.value.id == id && r.value.user == userId
                        && ColumnName(r.value.column) == dto.column
                        && r.value.order == TailOrder(old(notes), userId, r.value.column)
                        && !r.value.isArchived
                        && r.value.title == dto.title && r.value.content == dto.content
                        && r.value.priority == dto.priority && r.value.dueDate.None?
                        && r.value.assignedTo == dto.assignedTo
                        && r.value.createdAt == now && r.value.updatedAt == now
                        && r.value.tags == (if dto.tags.Some? then dto.tags.value else [])
    {
      var column := ParseColumn(dto.column).value;
      var order := TailOrder(notes, userId, column);
      var fields := NoteFields(dto.title, dto.content, userId, Some(dto.column), Some(order),
                               dto.tags, None, None, dto.assignedTo, dto.priority);
      var built := Construct(id, fields, now);
      if built.Err? {
        return Err(ValidationFailed(built.error));
      }
      notes := notes + [built.value];
      r := Ok(built.value);
    }

    /** `findAll`: the user's notes that are not archived, sorted by column name, then order. */
    function FindAll(userId: ObjectId): (r: seq<Note>)
      reads this
      ensures forall j :: 0 <= j < |r| ==> r[j] in notes && r[j].user == userId && !r[j].isArchived
      ensures forall j :: 0 <= j < |notes| && notes[j].user == userId && !notes[j].isArchived ==> notes[j] in r
      ensures forall x :: multiset(r)[x] == if x.user == userId && !x.isArchived then multiset(notes)[x] else 0
      ensures SortedBy(r, BoardKey)
      ensures |r| <= |notes|
    {
      var board := (n: Note) => n.user == userId && !n.isArchived;
      SortedSelection(notes, board, BoardKey);
      SortBy(Filter(notes, board), BoardKey)
    }

    /** `getArchivedNotes`: the user's archived notes, most recently updated first. */
    function GetArchivedNotes(userId: ObjectId): (r: seq<Note>)
      reads this
      ensures forall j :: 0 <= j < |r| ==> r[j] in notes && r[j].user == userId && r[j].isArchived
      ensures forall j :: 0 <= j < |notes| && notes[j].user == userId && notes[j].isArchived ==> notes[j] in r
      ensures forall x :: multiset(r)[x] == if x.user == userId && x.isArchived then multiset(notes)[x] else 0
      ensures forall j1, j2 :: 0 <= j1 < j2 < |r| ==> r[j1].updatedAt >= r[j2].updatedAt
      ensures |r| <= |notes|
    {
      var archived := (n: Note) => n.user == userId && n.isArchived;
      SortedSelection(notes, archived, ArchiveKey);
      ArchiveOrderDescends(SortBy(Filter(notes, archived), ArchiveKey));
      SortBy(Filter(notes, archived), ArchiveKey)
    }

    /** `findOne`: the note with this id owned by this user, or NotFound. */
    function FindOne(id: ObjectId, userId: ObjectId): (r: Result<Note, NotesError>)
      reads this
      ensures r.Ok? <==> exists j :: 0 <= j < |notes| && Matches(notes[j], id, userId)
      ensures r.Ok? ==> r.value in notes && Matches(r.value, id, userId)
      ensures r.Err? ==> r.error == NotFound(NoteNotFound)
    {
      match FindIndex(notes, id, userId)
      case None => Err(NotFound(NoteNotFound))
      case Some(i) => Ok(notes[i])
    }

    /** `update`: the matched note gets the body's fields; its position does not change. */
    method Update(id: ObjectId, dto: UpdateNoteDto, userId: ObjectId, now: int) returns (r: Result<Note, NotesError>)
      requires Valid() && UpdateErrors(dto) == {}
      modifies this
      ensures Valid()
      ensures r.Err? <==> FindIndex(old(notes), id, userId).None?
      ensures r.Err? ==> notes == old(notes) && r.error == NotFound(NoteNotFound)
      ensures r.Ok? ==> var i := FindIndex(old(notes), id, userId).value;
        && r.value == ApplyUpdate(old(notes)[i], dto, now)
        && notes == old(notes)[i := r.value]
    {
      var found := FindIndex(notes, id, userId);
      if found.None? {
        return Err(NotFound(NoteNotFound));
      }
      var i := found.value;
      var note := ApplyUpdate(notes[i], dto, now);
      notes := notes[i := note];
      r := Ok(note);
    }

    /** `remove`: `deleteOne` drops exactly the matched note; `deletedCount` 0 is NotFound.
        No other note is changed, so no order is shifted. */
    method Remove(id: ObjectId, userId: ObjectId) returns (r: Result<(), NotesError>)
      requires Valid()
      modifies this
      ensures Valid()
      ensures r.Err? <==> FindIndex(old(notes), id, userId).None?
      ensures r.Err? ==> notes == old(notes) && r.error == NotFound(NoteNotFound)
      ensures r.Ok? ==> var i := FindIndex(old(notes), id, userId).value;
        notes == old(notes)[..i] + old(notes)[i + 1..]
    {
      var found := FindIndex(notes, id, userId);
      if found.None? {
        return Err(NotFound(NoteNotFound));
      }
      var i := found.value;
      notes := notes[..i] + notes[i + 1..];
      r := Ok(());
    }

    /** `moveNote`, one transaction: look the note up by id and user (NotFound aborts with
        nothing changed), close the gap in its column, open a slot at the target, write the
        note's new column and order. The target order is not checked against the column. */
    method MoveNote(id: ObjectId, dto: MoveNoteDto, userId: ObjectId, now: int) returns (r: Result<Note, NotesError>)
      requires Valid() && ValidMove(dto)
      modifies this
      ensures Valid()
      ensures r.Err? <==> FindIndex(old(notes), id, userId).None?
      ensures r.Err? ==> notes == old(notes) && r.error == NotFound(NoteNotFound)
      ensures r.Ok? ==> var i := FindIndex(old(notes), id, userId).value;
        && notes == MoveEffect(old(notes), i, MoveTarget(dto), dto.order, now)
        && r.value == notes[i]
        && r.value == old(notes)[i].(column := MoveTarget(dto), order := dto.order, updatedAt := now)
    {
      var found := FindIndex(notes, id, userId);
      if found.None? {
        return Err(NotFound(NoteNotFound));
      }
      var i := found.value;
      ghost var before := notes;
      var note := notes[i];
      var target := MoveTarget(dto);
      notes := CloseGap(notes, userId, note.column, note.order, now);
      notes := OpenSlot(notes, userId, target, dto.order, now);
      note := note.(column := target, order := dto.order, updatedAt := now);
      notes := notes[i := note];
      MoveFrame(before, i, target, dto.order, now);
      assert forall j :: 0 <= j < |notes| ==> notes[j].order >= 0 by {
        forall j | 0 <= j < |notes| ensures notes[j].order >= 0 {
          assert before[j].order >= 0 && before[i].order >= 0;
        }
      }
      r := Ok(note);
    }

    /** `archiveNote`: sets only `isArchived` (and the `updatedAt` stamp) on the matched note;
        orders are untouched and the note keeps its slot in its column. */
    method ArchiveNote(id: ObjectId, userId: ObjectId, now: int) returns (r: Result<Note, NotesError>)
      requires Valid()
      modifies this
      ensures Valid()
      ensures r.Err? <==> FindIndex(old(notes), id, userId).None?
      ensures r.Err? ==> notes == old(notes) && r.error == NotFound(NoteNotFound)
      ensures r.Ok? ==> var i := FindIndex(old(notes), id, userId).value;
        && r.value == old(notes)[i].(isArchived := true, updatedAt := now)
        && notes == old(notes)[i := r.value]
    {
      var found := FindIndex(notes, id, userId);
      if found.None? {
        return Err(NotFound(NoteNotFound));
      }
      var i := found.value;
      var note := notes[i].(isArchived := true, updatedAt := now);
      notes := notes[i := note];
      r := Ok(note);
    }
  }
}
