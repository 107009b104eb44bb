/** The `Note` record of the notes collection (server/src/notes/schemas/note.schema.ts):
    the closed column set, the defaults Mongoose fills in, the validators `save` runs,
    and the `toJSON` transform. */
module NoteSchema {
  import opened Common
  import opened Json

  /** The schema's enum `['To Do', 'In Progress', 'Done']` as a closed type. */
  datatype Column = ToDo | InProgress | Done

  function ColumnName(c: Column): string {
    match c
    case ToDo => "To Do"
    case InProgress => "In Progress"
    case Done => "Done"
  }

  /** The enum membership test, also used by the DTO validators. */
  predicate IsColumnName(s: string) {
    s == "To Do" || s == "In Progress" || s == "Done"
  }

  function ParseColumn(s: string): (r: Option<Column>)
    ensures r.Some? <==> IsColumnName(s)
    ensures r.Some? ==> ColumnName(r.value) == s
  {
    if s == "To Do" then Some(ToDo)
    else if s == "In Progress" then Some(InProgress)
    else if s == "Done" then Some(Done)
    else None
  }

  lemma ColumnNameRoundTrip(c: Column)
    ensures IsColumnName(ColumnName(c))
    ensures ParseColumn(ColumnName(c)) == Some(c)
  {
  }

  const DefaultColumn: Column := ToDo
  const DefaultOrder: int := 0
  const DefaultArchived: bool := false
  const MinPriority: int := 1
  const MaxPriority: int := 5

  /** A stored note. Dates are milliseconds since the epoch; `createdAt` and `updatedAt`
      are the fields Mongoose's `timestamps: true` maintains. */
  datatype Note = Note(
    id: ObjectId,
    title: string,
    content: string,
    user: ObjectId,
    column: Column,
    order: int,
    tags: seq<string>,
    dueDate: Option<int>,
    isArchived: bool,
    assignedTo: Option<ObjectId>,
    priority: Option<int>,
    createdAt: int,
    updatedAt: int)

  /** What `new noteModel({...})` receives: the fields a caller gave, each possibly absent
      except the three the service always passes. */
  datatype NoteFields = NoteFields(
    title: string,
    content: string,
    user: ObjectId,
    column: Option<string>,
    order: Option<int>,
    tags: Option<seq<string>>,
    dueDate: Option<int>,
    isArchived: Option<bool>,
    assignedTo: Option<ObjectId>,
    priority: Option<int>)

  predicate PriorityInRange(p: Option<int>) {
    p.Some? ==> MinPriority <= p.value <= MaxPriority
  }

  /** The paths whose validators fail on `save`: Mongoose's `required` rejects an empty
      string, `enum` rejects a name outside the column set, `min`/`max` bound a present
      priority; absent optional fields are not validated. */
  function Violations(f: NoteFields): (bad: set<string>)
    ensures "title" in bad <==> f.title == ""
    ensures "content" in bad <==> f.content == ""
    ensures "column" in bad <==> f.column.Some? && !IsColumnName(f.column.value)
    ensures "priority" in bad <==> f.priority.Some? && !(MinPriority <= f.priority.value <= MaxPriority)
    ensures bad <= {"title", "content", "column", "priority"}
  {
    (if f.title == "" then {"title"} else {})
    + (if f.content == "" then {"content"} else {})
    + (if f.column.Some? && !IsColumnName(f.column.value) then {"column"} else {})
    + (if !PriorityInRange(f.priority) then {"priority"} else {})
  }

  /** Building a note document from `f` with id `id` at time `now` and validating it, as
      `save` does for a new document: either every default is applied, or the save fails
      listing the failing paths. */
  function Construct(id: ObjectId, f: NoteFields, now: int): (r: Result<Note, set<string>>)
    ensures r.Ok? <==>
      f.title != "" && f.content != "" &&
      (f.column.Some? ==> IsColumnName(f.column.value)) && PriorityInRange(f.priority)
    ensures r.Err? ==> r.error != {}
    ensures r.Ok? ==> ColumnName(r.value.column) == (if f.column.Some? then f.column.value else "To Do")
    ensures r.Ok? ==> r.value.order == (if f.order.Some? then f.order.value else 0)
    ensures r.Ok? ==> r.value.isArchived == (f.isArchived.Some? && f.isArchived.value)
    ensures r.Ok? ==> r.value.tags == (if f.tags.Some? then f.tags.value else [])
    ensures r.Ok? ==> r.value.id == id && r.value.user == f.user && r.value.title == f.title
                      && r.value.content == f.content && r.value.priority == f.priority
                      && r.value.dueDate == f.dueDate && r.value.assignedTo == f.assignedTo
                      && r.value.createdAt == now && r.value.updatedAt == now
  {
    var bad := Violations(f);
    if bad != {} then Err(bad)
    else
      var column := if f.column.Some? then ParseColumn(f.column.value).value else DefaultColumn;
      Ok(Note(id, f.title, f.content, f.user, column,
              if f.order.Some? then f.order.value else DefaultOrder,
              if f.tags.Some? then f.tags.value else [],
              f.dueDate,
              if f.isArchived.Some? then f.isArchived.value else DefaultArchived,
              f.assignedTo, f.priority, now, now))
  }

  /** The object Mongoose passes to `toJSON`'s transform for note `n`: its stored fields,
      `__v` (0: no versioned array change happens in the service) and, since the schema
      sets `virtuals: true`, the virtual `id`. Absent optional fields are absent keys. */
  function NoteDocument(n: Note): (d: map<string, Value>)
    ensures "_id" in d && d["_id"] == Id(n.id) && "__v" in d && "id" in d && d["id"] == Str(n.id.hex)
    ensures "column" in d && d["column"] == Str(ColumnName(n.column))
    ensures "order" in d && d["order"] == Num(n.order)
  {
    var stored := map[
      "_id" := Id(n.id), "title" := Str(n.title), "content" := Str(n.content),
      "user" := Id(n.user), "column" := Str(ColumnName(n.column)), "order" := Num(n.order),
      "tags" := Arr(seq(|n.tags|, i requires 0 <= i < |n.tags| => Str(n.tags[i]))),
      "isArchived" := Bool(n.isArchived), "createdAt" := Date(n.createdAt),
      "updatedAt" := Date(n.updatedAt), "__v" := Num(0), "id" := Str(n.id.hex)];
    var withDue := if n.dueDate.Some? then stored["dueDate" := Date(n.dueDate.value)] else stored;
    var withAssignee := if n.assignedTo.Some? then withDue["assignedTo" := Id(n.assignedTo.value)] else withDue;
    if n.priority.Some? then withAssignee["priority" := Num(n.priority.value)] else withAssignee
  }

  /** The schema's `toJSON` transform, mutating `ret` in place: `id` becomes the text of
      `_id`, then `_id` and `__v` are deleted. */
  method Transform(ret: JsonObject)
    requires "_id" in ret.fields && ret.fields["_id"].Id?
    modifies ret
    ensures ret.fields.Keys == old(ret.fields.Keys) - {"_id", "__v"} + {"id"}
    ensures ret.fields["id"] == Str(old(ret.fields["_id"]).oid.hex)
    ensures forall k :: k in old(ret.fields) && k != "_id" && k != "__v" && k != "id" ==>
      ret.fields[k] == old(ret.fields[k])
  {
    ret.fields := ret.fields["id" := Str(ret.fields["_id"].oid.hex)];
    ret.fields := ret.fields - {"_id"};
    ret.fields := ret.fields - {"__v"};
  }

  /** The JSON form of a stored note: the transform applied to its document. */
  method ToJson(n: Note) returns (json: map<string, Value>)
    ensures "_id" !in json && "__v" !in json
    ensures "id" in json && json["id"] == Str(n.id.hex)
    ensures "column" in json && json["column"] == Str(ColumnName(n.column))
    ensures "order" in json && json["order"] == Num(n.order)
    ensures forall k :: k in NoteDocument(n) && k != "_id" && k != "__v" ==>
      k in json && json[k] == NoteDocument(n)[k]
    ensures forall k :: k in json ==> k in NoteDocument(n)
  {
    var doc := NoteDocument(n);
    var ret := new JsonObject(doc);
    Transform(ret);
    json := ret.fields;
  }
}
