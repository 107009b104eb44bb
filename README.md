# nest-react-kanban, modelled in Dafny

This project models the core of a kanban board for personal notes. The server is NestJS over MongoDB; the client is React. The model has five parts.

- **Notes store** (`Notes.NotesService`): a user's notes, held as a sequence of records. Each note sits in one of three columns (To Do, In Progress, Done) at an integer `order`.
  - Creating a note puts it at the tail of its column.
  - Moving a note closes the gap it leaves and opens a slot where it lands. Both shifts are scoped to the user and the column.
  - Updating, archiving and deleting never touch an order.
  - The central result is `NoteOrdering.MovePreservesContiguity`. One algorithm, with no branch between same-column and cross-column moves, keeps the old and the target column numbered `0..n-1` whenever the request stays in range. `NoteOrdering.MoveLeavesOtherColumns` shows that every other column is left exactly as it was.
- **Schema and DTOs** (`NoteSchema`, `NoteDto`, `UserSchema`): the closed column set, the defaults, the validators Mongoose runs on `save`, the request-body validators, and the `toJSON` transforms that rename `_id` to `id`.
- **Board** (`KanbanBoard`): the client's optimistic reorder.
  - Grouping the cards by column.
  - Re-colouring the dragged card on drag-over.
  - Splice-remove and splice-insert plus renumbering on drop.
  - The `(column, order)` request sent to the server.
- **Accounts** (`Users.UsersService`, `Auth.AuthService`): register, verify the email, log in, ask for a reset, and reset the password. These are guarded transitions over a users table whose `_id`, `username` and `email` are unique.
  - bcrypt hashing and comparison, JWT signing, uuid tokens, fresh ObjectIds and the clock are all parameters.
- **Client helpers** (`RegisterValidator`, `LoginValidator`, `Breadcrumbs`, `LanguageToggle`): the form validators, the breadcrumb trail, and the language switch's path rewrite.
  - The regular expressions are restated as predicates over characters and proved equal to direct tests.

Some behaviours of the code that shape the model:

- **Archived notes count in the order partition.** Neither `create`'s lookup of the last note nor the two shifts in `moveNote` filter out archived notes (server/src/notes/notes.service.ts:12-16, 80-96). Contiguity is therefore stated over all of a user's notes in a column, archived or not.
- **Delete leaves a gap.** `remove` does not renumber the column; `NoteExamples.RemoveLeavesGap` shows the gap. Archiving changes only `isArchived`, so it leaves the partition's orders as they were; the gap it makes is in the board's non-archived view only.
- **The move is one step.** `moveNote` runs its three writes in one transaction, with no retry loop; the model makes it one atomic step.
- **The move's order has no upper bound.** The move request checks only `order >= 0` (server/src/notes/dto/note.dto.ts:71-78). `NoteExamples.PastTheEndBreaksContiguity` shows what an order past the end does.
- **A due date is always refused.** JSON has no date type. `dueDate` has no `@Type(() => Date)` and implicit conversion is off, so the `transform` step leaves it as the text that was sent, and `@IsDate` refuses it (server/src/notes/dto/note.dto.ts:28-30, 57-59). A create or update body that carries a due date is answered with a validation error, and no note gets a due date through the service.

The request validation pipe (`whitelist`, `forbidNonWhitelisted`, `transform`; server/src/main.ts:19-25) runs before every service method. A valid DTO is therefore a precondition of the service methods, and the validators themselves are modelled in `NoteDto`.

## Model

| member | source | states |
|---|---|---|
| Common.FirstIndex | server/src/users/users.service.ts:26-44 | the `findOne` semantics every lookup shares: the first element satisfying the filter, or none exactly when no element does |
| Common.FilterMembers | server/src/notes/notes.service.ts:26-31 | a query's filter keeps exactly the elements that satisfy it |
| Common.FilterCounts | server/src/notes/notes.service.ts:26-31 | the filter keeps each selected value as often as the input holds it, and no other value |
| Common.SortBy | server/src/notes/notes.service.ts:26-31 | the sort's result is ordered by the key and is a permutation of its input |
| NoteSchema.ParseColumn | server/src/notes/schemas/note.schema.ts:29-34 | a string names a column iff it is one of the three enum values, and parsing inverts the column's name |
| NoteSchema.ColumnNameRoundTrip | server/src/notes/schemas/note.schema.ts:29-34 | every column's name is in the enum and parses back to that column |
| NoteSchema.Construct | server/src/notes/schemas/note.schema.ts:29-52 | a new document saves iff title and content are non-empty, the column is in the enum and a given priority is in 1..5; on success column defaults to 'To Do', order to 0, isArchived to false, tags to empty, and the given fields and timestamps are kept |
| NoteSchema.Violations | server/src/notes/schemas/note.schema.ts:18-52 | the failing paths are exactly: title or content empty, a column outside the enum, a priority outside 1..5; no other path fails |
| NoteSchema.NoteDocument | server/src/notes/schemas/note.schema.ts:8-16 | the object handed to the transform holds `_id` (the note's id), `__v`, the virtual `id`, the column name and the order |
| NoteSchema.Transform | server/src/notes/schemas/note.schema.ts:11-16 | the transform sets `id` to the text of `_id`, removes `_id` and `__v`, and leaves every other key as it was |
| NoteSchema.ToJson | server/src/notes/schemas/note.schema.ts:8-16 | the serialised note has `id` = text of `_id`, column name, order, no `_id` or `__v`, and every other stored field unchanged |
| NoteDto.CreateErrors | server/src/notes/dto/note.dto.ts:12-41 | a create body is rejected iff its column is not one of the three names, it carries a due date, or a given priority is outside 1..5, naming each failing path |
| NoteDto.DueDateErrors | server/src/notes/dto/note.dto.ts:28-30 | `@IsOptional @IsDate` on a JSON body: an absent due date passes and any present one fails |
| NoteDto.UpdateErrors | server/src/notes/dto/note.dto.ts:42-69 | an update body fails only on the due date, iff one is given, and on priority, iff a given priority is outside 1..5 |
| NoteDto.MoveErrors | server/src/notes/dto/note.dto.ts:71-78 | a move body is rejected iff its column is not a column name or its order is negative; no upper bound |
| NoteDto.MoveTarget | server/src/notes/dto/note.dto.ts:72-73 | a valid move names a column, and the target is the column with that name |
| NoteOrdering.MaxOrder | server/src/notes/notes.service.ts:12-16 | the largest order among the user's notes in the column, archived included, or none iff there are none |
| NoteOrdering.TailOrder | server/src/notes/notes.service.ts:11-15 | a new note's order is above every order in its column, one past the largest, and 0 for an empty column |
| NoteOrdering.MoveFrame | server/src/notes/notes.service.ts:80-100 | after a move, the moved note has the target column and order with its other fields kept, notes of other users or untouched columns are unchanged, and other notes change only in order and updatedAt |
| NoteOrdering.MoveEffect | server/src/notes/notes.service.ts:80-100 | the moved note keeps its id and owner and ends in the target column at the requested order; the list keeps its length |
| NoteOrdering.CloseGapEffect | server/src/notes/notes.service.ts:80-85 | closing the gap lowers by exactly one, and stamps, the user's notes in the column above the old order; every other note is unchanged and no note changes owner or column |
| NoteOrdering.OpenSlotEffect | server/src/notes/notes.service.ts:87-96 | opening the slot raises by exactly one, and stamps, the user's notes in the target column at or above the new order; every other note is unchanged and no note changes owner or column |
| NoteOrdering.CrossMoveOldColumn | server/src/notes/notes.service.ts:80-85 | for a move to another column, each old-column sibling above the old order drops by exactly one, the rest are untouched |
| NoteOrdering.CrossMoveTargetColumn | server/src/notes/notes.service.ts:87-96 | for a move to another column, each target-column note at or above the target order rises by exactly one, the rest are untouched |
| NoteOrdering.SameColumnMove | server/src/notes/notes.service.ts:80-96 | within one column the two shifts move exactly the siblings between the old and the new order one step towards the vacated slot |
| NoteOrdering.CrossMoveKeepsOldColumn | server/src/notes/notes.service.ts:80-85 | a contiguous old column stays contiguous after a note leaves it |
| NoteOrdering.CrossMoveKeepsTargetColumn | server/src/notes/notes.service.ts:87-100 | a contiguous target column stays contiguous when a note enters it at an order up to its count |
| NoteOrdering.EntryKeepsContiguity | server/src/notes/notes.service.ts:87-100 | a note entering a contiguous column at order k, with the column's notes at k or above shifted up by one and nothing else regrouped, leaves the column contiguous |
| NoteOrdering.SameColumnMoveKeepsColumn | server/src/notes/notes.service.ts:80-100 | a contiguous column stays contiguous under a move within it to an order below its count |
| NoteOrdering.MovePreservesContiguity | server/src/notes/notes.service.ts:80-100 | with both columns numbered 0..n-1 and the target order at most the target column's count without the moved note, both columns stay numbered 0..n-1, same-column or not |
| NoteOrdering.MoveLeavesOtherColumns | server/src/notes/notes.service.ts:80-100 | a column that is neither the source nor the target keeps the same members, every one unchanged |
| NoteOrdering.MoveIsolatesUsers | server/src/notes/notes.service.ts:80-96 | a move never changes a note of another user |
| NoteOrdering.MoveInPlaceKeepsOrders | server/src/notes/notes.service.ts:80-100 | moving a note to its own column and order leaves every column and order unchanged when no sibling shares its order |
| NoteOrdering.CreateAtTailPreservesContiguity | server/src/notes/notes.service.ts:11-24 | appending a note at the tail order keeps a contiguous column contiguous |
| NoteOrdering.AppendPartition | server/src/notes/notes.service.ts:18-23 | an appended note joins exactly its own (user, column) partition |
| NoteOrdering.BelowTail | server/src/notes/notes.service.ts:12-16 | in a contiguous column every order is below the tail order, which is at most the column's count |
| NoteExamples.CrossColumnExample | server/src/notes/notes.service.ts:80-100 | A=[n0:0,n1:1,n2:2], B=[m0:0]; moving n1 to B at 0 gives A=[n0:0,n2:1], B=[n1:0,m0:1] |
| NoteExamples.MoveDownExample | server/src/notes/notes.service.ts:80-100 | in [a,b,c,d], moving a to 2 gives the order b,c,a,d |
| NoteExamples.MoveUpExample | server/src/notes/notes.service.ts:80-100 | in [a,b,c,d], moving d to 1 gives the order a,d,b,c |
| NoteExamples.PastTheEndBreaksContiguity | server/src/notes/dto/note.dto.ts:75-77 | an accepted order past the column's end leaves the column non-contiguous: [t0:0,t1:1] with t0 moved to 3 gives orders 3 and 0 |
| NoteExamples.RemoveLeavesGap | server/src/notes/notes.service.ts:55-62 | deleting the middle of three notes leaves orders 0 and 2 |
| Notes.FindIndex | server/src/notes/notes.service.ts:34 | the lookup by `_id` and user: the first note matching both, or none iff none matches |
| Notes.StringLessIrreflexive | server/src/notes/notes.service.ts:29 | the string order used by the column sort is irreflexive |
| Notes.ColumnRankIsNameOrder | server/src/notes/notes.service.ts:29 | sorting by column name ascending is sorting by the rank Done < In Progress < To Do |
| Notes.ColumnRank | server/src/notes/notes.service.ts:29 | a column's rank is the position of its name among the three names in string order |
| Notes.BoardKeyOrder | server/src/notes/notes.service.ts:29 | the board key orders notes by column name, then by order within a column |
| Notes.ArchiveKeyOrder | server/src/notes/notes.service.ts:129 | the archive key puts the later `updatedAt` first |
| Notes.ApplyUpdate | server/src/notes/notes.service.ts:41-53 | each field the body carries is written and every absent one kept; `updatedAt` is the new stamp; id, user, column, order, isArchived, dueDate and createdAt never change, and a valid priority stays valid |
| Notes.UpdateTwice | server/src/notes/notes.service.ts:41-53 | sending the same update body again changes nothing but the timestamp |
| Notes.SortedSelection | server/src/notes/notes.service.ts:26-31 | the sorted result of a query holds exactly the notes its filter selects, each as often as the store holds it |
| Notes.ArchiveOrderDescends | server/src/notes/notes.service.ts:129 | sorting ascending by `-updatedAt` puts the most recently updated note first |
| Notes.NotesService.Create | server/src/notes/notes.service.ts:11-24 | succeeds iff title and content are non-empty; the note is appended with the given fields, no due date, the user, order = largest order in its column + 1 (or 0), `createdAt` and `updatedAt` both the current time, and the store stays valid |
| Notes.NotesService.FindAll | server/src/notes/notes.service.ts:26-31 | exactly the user's non-archived notes, each as often as the store holds it, sorted by column name then order |
| Notes.NotesService.GetArchivedNotes | server/src/notes/notes.service.ts:126-131 | exactly the user's archived notes, each as often as the store holds it, most recently updated first |
| Notes.NotesService.FindOne | server/src/notes/notes.service.ts:33-39 | a note with that id and user iff one exists, otherwise NotFound('Note not found') |
| Notes.NotesService.Update | server/src/notes/notes.service.ts:41-53 | NotFound iff no note matches, and then nothing changes; otherwise only the matched note changes, by the given fields, with its position kept |
| Notes.NotesService.Remove | server/src/notes/notes.service.ts:55-62 | NotFound iff no note matches, and then nothing changes; otherwise exactly the matched note is removed and no order changes |
| Notes.NotesService.MoveNote | server/src/notes/notes.service.ts:64-110 | NotFound iff no note matches, and then nothing changes (the aborted transaction); otherwise the store becomes the gap-close, slot-open and write of the found note, and the result is that note with its new column and order |
| Notes.NotesService.ArchiveNote | server/src/notes/notes.service.ts:112-124 | NotFound iff no note matches, and then nothing changes; otherwise only the matched note changes, to isArchived = true, and no order changes |
| KanbanBoard.IsColumnId | client/src/components/notes/KanbanBoard.tsx:177-179 | true exactly for 'To Do', 'In Progress' and 'Done' |
| KanbanBoard.FindCard | client/src/components/notes/KanbanBoard.tsx:146-147 | `findIndex` by id: the first card with the id, or none iff there is none |
| KanbanBoard.NotesByColumn | client/src/components/notes/KanbanBoard.tsx:58-68 | the map has the three columns as keys, each holding exactly that column's cards in input order |
| KanbanBoard.CardsInMembers | client/src/components/notes/KanbanBoard.tsx:58-68 | a column's list holds cards of that column only, drawn from the board, and every card of that column |
| KanbanBoard.CardsInSnoc | client/src/components/notes/KanbanBoard.tsx:62-66 | pushing a card extends only its own column's list |
| KanbanBoard.ColumnsPartitionCards | client/src/components/notes/KanbanBoard.tsx:58-68 | every card is in exactly one column list: the three lists together are a permutation of the input |
| KanbanBoard.Target | client/src/components/notes/KanbanBoard.tsx:88-100 | the column a drag-over aims at: the column itself for a column id, otherwise the column of the first card with that id, none when there is none |
| KanbanBoard.Recolor | client/src/components/notes/KanbanBoard.tsx:91-95 | the card with the id moves to the column; ids, orders and details are kept, and every other card is unchanged |
| KanbanBoard.DragOver | client/src/components/notes/KanbanBoard.tsx:78-110 | only the active card's column may change; ids, orders, details and every other card are unchanged; with nothing to act on the list is unchanged |
| KanbanBoard.DragOverIdempotent | client/src/components/notes/KanbanBoard.tsx:78-110 | repeating the same drag-over changes nothing more |
| KanbanBoard.Splice | client/src/components/notes/KanbanBoard.tsx:149-156 | remove at the active index and insert at the over index: the card lands at the over index and the cards between shift by one |
| KanbanBoard.SpliceKeepsIds | client/src/components/notes/KanbanBoard.tsx:145-156 | the spliced list holds the same ids as before |
| KanbanBoard.CardArray.RemoveAt | client/src/components/notes/KanbanBoard.tsx:151 | `splice(start, 1)` removes the element at `start`, or nothing when `start` is past the end |
| KanbanBoard.CardArray.InsertAt | client/src/components/notes/KanbanBoard.tsx:153-156 | `splice(start, 0, x)` inserts `x` at `start`, or at the end when `start` is past it |
| KanbanBoard.HandleDragEnd | client/src/components/notes/KanbanBoard.tsx:112-175 | the step-by-step drop handler, splicing a copied array, computes the drop function |
| KanbanBoard.Renumber | client/src/components/notes/KanbanBoard.tsx:158-163 | renumbering a column changes only the orders of that column's cards |
| KanbanBoard.RenumberNumbersColumn | client/src/components/notes/KanbanBoard.tsx:158-163 | after renumbering from n, the column's cards carry n, n+1, ... in list order |
| KanbanBoard.RenumberRank | client/src/components/notes/KanbanBoard.tsx:158-163 | a renumbered card's order is n plus the number of same-column cards before it |
| KanbanBoard.CountBefore | client/src/components/notes/KanbanBoard.tsx:158-163 | the cards of a column before one of its cards are fewer than the whole column |
| KanbanBoard.ByIndex | client/src/components/notes/KanbanBoard.tsx:158-163 | every card of the column gets its index in the whole list as its order; ids, columns and details are kept, and cards of other columns are unchanged |
| KanbanBoard.ByIndexAgreesWithRenumber | client/src/components/notes/KanbanBoard.tsx:158-163 | a card's whole-list number equals its number within its column exactly when no card of another column comes before it |
| KanbanBoard.DragEnd | client/src/components/notes/KanbanBoard.tsx:112-175 | no target, an unknown card or a drop on itself changes nothing and sends nothing; a column drop re-colours the card and requests order 0; a card drop splices, gives every card of the target column its whole-list index as its order and requests order = over index; the ids are preserved |
| KanbanBoard.DragEndFixed | client/src/components/notes/KanbanBoard.tsx:145-169 | the corrected drop: the target column is numbered 0..m-1 and the request's order is the moved card's order there, below the column's size |
| KanbanBoard.RenumberedDrop | client/src/components/notes/KanbanBoard.tsx:149-169 | the corrected drop of one card on another: the moved card takes the other's index and column, the column is numbered 0..m-1 in list order, the request carries the moved card's number, and the ids are a permutation of the old ones |
| KanbanBoard.DropOnItselfIsNoOp | client/src/components/notes/KanbanBoard.tsx:144 | dropping a card on itself leaves the list and sends no request |
| KanbanBoard.OverIndexIsGlobal | client/src/components/notes/KanbanBoard.tsx:158-169 | with two Done cards before two To Do cards, dropping the first To Do card on the second requests order 3 in a two-card column |
| KanbanBoard.TwoCardsInToDo | client/src/components/notes/KanbanBoard.tsx:158-163 | the example list has two To Do cards |
| KanbanBoard.OverIndexFixed | client/src/components/notes/KanbanBoard.tsx:158-169 | the corrected drop on the same example requests order 1 and numbers To Do 0, 1 |
| UserSchema.UserViolations | server/src/users/schemas/user.schema.ts:23-30 | saving fails iff username, email or password is empty |
| UserSchema.NewUser | server/src/users/schemas/user.schema.ts:32-42 | a new user is unverified, holds the verification token, and has no reset token or expiry |
| UserSchema.UserDocument | server/src/users/schemas/user.schema.ts:6-17 | the object handed to the transform holds `_id`, `__v` and the password |
| UserSchema.Transform | server/src/users/schemas/user.schema.ts:10-16 | the transform sets `id` to the text of `_id`, removes `_id`, `__v` and `password`, and leaves every other key |
| UserSchema.ToJson | server/src/users/schemas/user.schema.ts:6-17 | the serialisation has `id` and never `_id`, `__v` or `password`; every other field is kept |
| Users.IndexBy | server/src/users/users.service.ts:26-44 | each `findOne` on one field: the first user whose field holds the key, or none iff no user does (by id, username, email, verification token and reset token) |
| Users.IdFindsItsUser | server/src/users/schemas/user.schema.ts:20-21 | with unique ids a user's id finds that very user |
| Users.EmailFindsItsUser | server/src/users/schemas/user.schema.ts:26-27 | with unique emails a user's email finds that very user |
| Users.UsersService.Create | server/src/users/users.service.ts:11-24 | succeeds iff the strings are non-empty and username and email are both free; appends the user with the given fields; the unique indexes hold afterwards |
| Users.UsersService.FindByUsername | server/src/users/users.service.ts:26-28 | a stored user with that username, or null iff none |
| Users.UsersService.FindByEmail | server/src/users/users.service.ts:30-32 | a stored user with that email, or null iff none |
| Users.UsersService.FindById | server/src/users/users.service.ts:34-36 | a stored user with that id, or null iff none |
| Users.UsersService.FindByVerificationToken | server/src/users/users.service.ts:38-40 | a stored user holding that token, or null iff none |
| Users.UsersService.FindByResetToken | server/src/users/users.service.ts:42-44 | a stored user holding that reset token, or null iff none |
| Users.UsersService.VerifyUser | server/src/users/users.service.ts:46-54 | NotFound iff the id is unknown, with nothing changed; otherwise only that user changes, to verified with no token |
| Users.UsersService.SetResetToken | server/src/users/users.service.ts:56-64 | NotFound iff the id is unknown; otherwise only that user changes, gaining the token and an expiry of now + 3600000 ms |
| Users.UsersService.ResetPassword | server/src/users/users.service.ts:66-75 | NotFound for an unknown id; otherwise only that user changes, to the new hash with both reset fields cleared |
| Auth.AuthService.Register | server/src/auth/auth.service.ts:33-53 | a taken email is a Conflict with no user created; success iff email and username are free and the fields are non-empty, creating the user with the hashed password and the fresh token |
| Auth.AuthService.VerifyEmail | server/src/auth/auth.service.ts:55-63 | BadRequest iff no user holds the token, with nothing changed; otherwise that user becomes verified and loses the token |
| Auth.AuthService.Login | server/src/auth/auth.service.ts:65-82 | 'Invalid credentials' iff the email is unknown or the password does not match; 'Please verify…' iff it matches an unverified user; otherwise both tokens signed over {email, sub: id} with lifetimes 15m and 7d |
| Auth.AuthService.ForgotPassword | server/src/auth/auth.service.ts:102-114 | BadRequest iff the email is unknown, with nothing changed; otherwise that user gets the fresh token expiring an hour after now |
| Auth.AuthService.ResetPassword | server/src/auth/auth.service.ts:116-126 | BadRequest iff no user holds the token; otherwise that user gets the new hash and loses both reset fields, whatever the expiry |
| RegisterValidator.IndexOf | client/src/validators/registerFormValidators.ts:23-26 | the first position of a character, or -1 iff it does not occur |
| RegisterValidator.EmailTestMatchesPattern | client/src/validators/registerFormValidators.ts:23-26 | the direct email test accepts exactly the language of the expression: one '@' with something before it, no whitespace, and a '.' in the domain that is neither its first nor its last character |
| RegisterValidator.PasswordTestMatchesPattern | client/src/validators/registerFormValidators.ts:28-31 | the direct password test accepts exactly the language of the expression with its lookaheads |
| RegisterValidator.ValidateRegisterForm | client/src/validators/registerFormValidators.ts:16-38 | each field's message is present iff its own check fails, with the source's message text, and the result is empty iff all four checks pass |
| LoginValidator.ValidateLoginForm | client/src/validators/loginValidator.ts:12-29 | 'Email is required' iff the email is empty, the invalid-address message iff it is non-empty and fails the pattern, 'Password is required' iff empty, too-short iff 1..7 characters; no errors iff the pattern holds and the length is at least 8 |
| LoginValidator.RegisteredFormPassesLogin | client/src/validators/loginValidator.ts:12-29 | an email and a password that pass the registration form also pass the login form |
| Breadcrumbs.Split | client/src/components/notes/Breadcrumbs.tsx:9 | the split has at least one piece and no piece contains '/' |
| Breadcrumbs.JoinSplit | client/src/components/notes/Breadcrumbs.tsx:9 | joining the pieces with '/' restores the path |
| Breadcrumbs.SplitJoin | client/src/components/notes/Breadcrumbs.tsx:9 | splitting a join of slash-free pieces gives the pieces back |
| Breadcrumbs.Segments | client/src/components/notes/Breadcrumbs.tsx:9 | every segment is non-empty and slash-free |
| Breadcrumbs.SegmentsOfJoin | client/src/components/notes/Breadcrumbs.tsx:9 | the segments of a path built from non-empty slash-free pieces are those pieces |
| Breadcrumbs.Trail | client/src/components/notes/Breadcrumbs.tsx:19-29 | one crumb per segment after the first, labelled by it, linking to segments 1..i joined, the last one marked |
| Breadcrumbs.TrailHrefs | client/src/components/notes/Breadcrumbs.tsx:24 | crumb i of the trail links to "/dashboard/" followed by segments 1..i+1 joined, the last to all segments after the first |
| Breadcrumbs.LabelKeepsRest | client/src/components/notes/Breadcrumbs.tsx:26 | a label changes only the first character of its segment |
| Breadcrumbs.JoinSnoc | client/src/components/notes/Breadcrumbs.tsx:24 | joining one more piece appends the separator and that piece |
| Breadcrumbs.Crumbs | client/src/components/notes/Breadcrumbs.tsx:9-31 | the first crumb is Dashboard at /dashboard, unmarked; then one crumb per later segment with its label; each href extends the previous by "/" + that segment; the last links to all segments after the first; only the last is marked |
| Breadcrumbs.HrefsExtend | client/src/components/notes/Breadcrumbs.tsx:24 | each crumb's href is the previous one's plus "/" and its segment |
| LanguageToggle.LanguageName | client/src/components/toggles/LanguageToggle.tsx:18-25 | en, ru and kk get English, Русский and Қазақша; any other code is returned unchanged |
| LanguageToggle.OptionLabelsAgree | client/src/components/toggles/LanguageToggle.tsx:30-35 | the name shown for each option's value is the label that option is listed with |
| LanguageToggle.KnownNamesDiffer | client/src/components/toggles/LanguageToggle.tsx:19-23 | a known code is shown by a name different from the code |
| LanguageToggle.SegmentEnd | client/src/components/toggles/LanguageToggle.tsx:14 | the end of the leading run of non-'/' characters |
| LanguageToggle.Substitute | client/src/components/toggles/LanguageToggle.tsx:14 | a replacement string without '$' is inserted literally |
| LanguageToggle.NewPath | client/src/components/toggles/LanguageToggle.tsx:14 | a path without a leading segment is unchanged; otherwise the rest of the path after the first segment is kept at the end |
| LanguageToggle.NewPathReplacesFirstSegment | client/src/components/toggles/LanguageToggle.tsx:14 | a path starting with '/' and a non-'/' character has its first segment replaced by "/" + value, the rest kept verbatim; any other path is unchanged |

## Left out

- **I/O.** Sending the verification and reset emails (nodemailer) is not modelled, and nor is the HTTP layer: controllers, the exception filter, i18n, and `axiosInstance`'s token-refresh queue with its async concurrency.
- **Foreign calls.** bcrypt `hash` and `compare`, JWT `sign`, `uuidv4`, fresh ObjectIds and `Date.now` are parameters of the operations that use them. Parsing an ObjectId from text is not modelled; ids are compared as values.
- **refreshToken** (server/src/auth/auth.service.ts:84-100) is not modelled: it is a JWT `verify` inside a catch-all.
- **Transactions.** The session, its isolation and concurrent movers are not modelled; `moveNote` is one atomic step that commits all three writes, or nothing when the note is not found.
- **Change tracking.** `Notes.NotesService.MoveNote` writes the moved note unconditionally. With Mongoose change tracking, a move to the note's own column and order would not save the unchanged fields, so the note would keep the `+1` the slot-open gave it.
- **Order type.** `MoveNoteDto.order` is validated as a number, so a non-integer order passes; the model's orders are integers.
- NoteDto.CreateErrors: `priority` is checked as a number between 1 and 5 (server/src/notes/dto/note.dto.ts:32-35), so a non-integer such as 2.5 passes; the model's priorities are integers, so that case is not represented.
- NoteDto.UpdateErrors: the same holds for the update body's `priority` (server/src/notes/dto/note.dto.ts:61-64).
- NoteSchema.Violations: the schema's `min: 1, max: 5` on `priority` (server/src/notes/schemas/note.schema.ts:51-52) also admits a non-integer; the model checks the range on integers only.
- **Timestamps.** The users' `createdAt`/`updatedAt` timestamps are not modelled.
- **Duplicate keys.** When both username and email are taken, which duplicate-key error Mongo reports depends on the index build; `Users.UsersService.Create` reports the username first.
- **KanbanBoard.DragEnd**: React's batching of `setNotes` with its `prevNotes` callback form is not modelled; the handler reads the current list.
- **KanbanBoard.DragOver**: the same holds for the drag-over handler's `setNotes(prevNotes => …)`; it reads the current list.
- **handleDragStart** only records the active id for the overlay, which is UI state and not modelled.
- **The board list.** The server's contiguity partition includes archived notes, while the board holds only `findAll`'s non-archived ones; the two agree only when the user has no archived notes.
- **Strings.** They are sequences of code points. JavaScript's UTF-16 lengths and `charAt` are not modelled; the validators' length checks and `Breadcrumbs.Label` differ from the source only on characters outside the Basic Multilingual Plane.
- **Breadcrumbs.Label**: `toUpperCase` is a parameter, and its Unicode case mapping is not modelled.
- **UI.** The UI components and pages, React Query hooks, DOMPurify, localStorage, `i18n.changeLanguage` and `navigate` are not modelled.
- **Auth DTOs.** The `IsEmail`/`IsUUID` body checks are not modelled.
- **Older schema.** The older copy of the note schema under `src/notes/schemas/` and the client type `types/note.ts` are not modelled: the service imports the schema under `server/`, and the client type carries the same shape.

## Findings

| source | as written | input that shows it | evidently intended | confidence | as-written member | corrected member |
|---|---|---|---|---|---|---|
| client/src/components/notes/KanbanBoard.tsx:158-169 | after a note-over-note drop the target column's cards are numbered by their index in the whole board list, and the request sends `order: overIndex`, also a whole-list index | cards [d0 Done 0, d1 Done 1, t0 To Do 0, t1 To Do 1]; drop t0 on t1: the request is To Do at order 3 for a two-card column, and the client numbers To Do 2, 3 | number the target column's cards by their position within that column and send the moved card's position there (t1:0, t0:1, request order 1) | not executed | KanbanBoard.OverIndexIsGlobal | KanbanBoard.OverIndexFixed |
