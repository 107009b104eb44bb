/** The request bodies of the notes endpoints (server/src/notes/dto/note.dto.ts) and the
    checks the global `ValidationPipe` (whitelist, forbidNonWhitelisted, transform) runs on
    them before any service method is called. Each check yields the set of failing
    properties.

    JSON has no date type, and `dueDate` carries no `@Type(() => Date)` while implicit
    conversion is off, so the transform leaves a sent `dueDate` as the JSON text it was.
    `@IsDate` accepts only a `Date` object, so every body that carries a `dueDate` is
    refused. `dueDate` is therefore the text as sent, and any other JSON value there is
    refused the same way. */
module NoteDto {
  import opened Common
  import opened NoteSchema

  datatype CreateNoteDto = CreateNoteDto(
    title: string,
    content: string,
    column: string,
    tags: Option<seq<string>>,
    dueDate: Option<string>,
    priority: Option<int>,
    assignedTo: Option<ObjectId>)

  /** No `column` and no `order`: with the whitelist a body carrying either is refused,
      so an update can never change a note's position. */
  datatype UpdateNoteDto = UpdateNoteDto(
    title: Option<string>,
    content: Option<string>,
    tags: Option<seq<string>>,
    dueDate: Option<string>,
    priority: Option<int>,
    assignedTo: Option<ObjectId>)

  datatype MoveNoteDto = MoveNoteDto(column: string, order: int)

  /** `@IsOptional @IsDate` on `dueDate`: absent passes, anything a JSON body can hold fails. */
  function DueDateErrors(dueDate: Option<string>): (bad: set<string>)
    ensures bad == {} <==> dueDate.None?
    ensures bad <= {"dueDate"}
  {
    if dueDate.None? then {} else {"dueDate"}
  }

  /** `@IsEnum` on `column`, `@IsOptional @IsDate` on `dueDate`, `@IsOptional @Min(1) @Max(5)`
      on `priority`. */
  function CreateErrors(d: CreateNoteDto): (bad: set<string>)
    ensures bad == {} <==> IsColumnName(d.column) && d.dueDate.None? && PriorityInRange(d.priority)
    ensures "column" in bad <==> !IsColumnName(d.column)
    ensures "dueDate" in bad <==> d.dueDate.Some?
    ensures "priority" in bad <==> d.priority.Some? && !(1 <= d.priority.value <= 5)
    ensures bad <= {"column", "dueDate", "priority"}
  {
    (if IsColumnName(d.column) then {} else {"column"})
    + DueDateErrors(d.dueDate)
    + (if PriorityInRange(d.priority) then {} else {"priority"})
  }

  /** Only the optional due date and the optional priority are checked. */
  function UpdateErrors(d: UpdateNoteDto): (bad: set<string>)
    ensures bad == {} <==> d.dueDate.None? && PriorityInRange(d.priority)
    ensures "dueDate" in bad <==> d.dueDate.Some?
    ensures "priority" in bad <==> d.priority.Some? && !(1 <= d.priority.value <= 5)
    ensures bad <= {"dueDate", "priority"}
  {
    DueDateErrors(d.dueDate) + (if PriorityInRange(d.priority) then {} else {"priority"})
  }

  /** `@IsEnum` on `column`, `@IsNumber @Min(0)` on `order`: nothing bounds the order from
      above, so any order at or past the end of the target column is accepted. */
  function MoveErrors(d: MoveNoteDto): (bad: set<string>)
    ensures bad == {} <==> IsColumnName(d.column) && d.order >= 0
    ensures "order" in bad <==> d.order < 0
    ensures "column" in bad <==> !IsColumnName(d.column)
  {
    (if IsColumnName(d.column) then {} else {"column"})
    + (if d.order >= 0 then {} else {"order"})
  }

  predicate ValidMove(d: MoveNoteDto) { MoveErrors(d) == {} }

  /** The target of an accepted move. */
  function MoveTarget(d: MoveNoteDto): (c: Column)
    requires ValidMove(d)
    ensures ColumnName(c) == d.column
  {
    ParseColumn(d.column).value
  }
}
