# taskflow in Dafny

A model of the decision and data rules of taskflow, a task-board application: an Express server
over MySQL and a React browser client. The model covers four parts of the system:

- **Server request handlers.** The admin, board, task, FAQ and contact controllers and the
  authentication middleware are functions from a request and a database snapshot (`Store.Db`)
  to a response and the new snapshot. Each function is its handler's chain of early returns.
- **Table operations.** The board, task, FAQ and admin models state the effect of their SQL on
  tables, which are maps keyed by AUTO_INCREMENT id. The parts that change tables in place are
  methods on the mutable `Store.Database`, and each method is proved equal to its pure
  statement. The start-up migration `setupDatabase` is one of these methods. It is proved
  idempotent and proved to stop at its first error.
- **Browser session.** `localStorage` is a string map. The auth service, the AuthProvider
  context and the admin route guard are modelled over it.
- **Browser pages.** The dashboard, task list, register, forgot-password, admin users, admin
  dashboard, admin security, admin FAQ and public FAQ pages are modelled in two parts:
  - Their validators and payload builders are functions.
  - Their component state is a class with one field per `useState`. Each handler is a method.
    It takes the outcome of every awaited service call as a parameter: `Option<ClientError>`
    for a write, `Client.Reply` for a read.

Shared modules:

- `JsValues`: JavaScript values with their truthiness, `String()`, `Number()` and object spread.
- `Text`: `trim`, `\s`, UTF-16 `length`, `split`, `replace`.
- `Email`: the single email rule `^[^@\s]+@[^@\s]+\.[^@\s]+$`. Its executable checker is
  proved equal to the pattern.
- `SqlUpdate`: the partial-update SET clause that adminModel and faqModel share.

These steps are parameters of the model:

- JSON serialisation and parsing;
- JWT verification;
- password hashing;
- the mail transport;
- the failure of any store query (`Store.Fault` says which query of a request fails).

## Model

| member | source | states |
|---|---|---|
| AdminController.UpdatesOfHolds | backend/src/controllers/adminController.js:15-51 | The `updates` object built field by field holds each of the five fields' values under its own key. |
| AdminController.UpdatesOfNothingElse | backend/src/controllers/adminController.js:15-51 | `updates` holds no key other than first_name, last_name, email, role and status. |
| AdminController.UpdatesOfDefined | backend/src/controllers/adminController.js:15-51 | Every entry of `updates` is defined, because only present fields are set. |
| AdminController.ValidateDetails | backend/src/controllers/adminController.js:17-51 | Each refusal message is given exactly when its own check fails and every earlier check passed: first name, last name, email, role, status, in that order. An accepted body yields the trimmed `updates`. |
| AdminController.DetailUpdatesOnlyPresent | backend/src/controllers/adminController.js:17-51 | Only fields present in the body are written. The names and the email are trimmed; role and status are stored as sent. |
| AdminController.TrimmedNameClean | backend/src/controllers/adminController.js:18-21 | A present name that passes its check is stored as a non-blank string with nothing left to trim. |
| AdminController.AcceptedDetailsAreClean | backend/src/controllers/adminController.js:17-51 | In an accepted body, stored names are non-blank and trimmed, the email matches the email pattern, and role and status are known values. |
| AdminController.NoFieldsRefused | backend/src/controllers/adminController.js:53-55 | A body with none of the five fields is a 400 "No valid fields provided" that writes nothing. |
| AdminController.DetailUpdatesDefined | backend/src/controllers/adminController.js:53-57 | A non-empty `updates` always makes updateUser issue its query. |
| AdminController.CatchUpdate | backend/src/controllers/adminController.js:67-72 | MISSING_COLUMNS is a 400 carrying the error's message; every other failure is a 500 with the handler's message. |
| AdminController.UpdateThenAuditOrder | backend/src/controllers/adminController.js:57-66 | The audit entry is appended exactly when the handler answers 200. A failed update leaves the audit log unchanged, and leaves the whole store unchanged unless the audit insert failed. |
| AdminController.UpdateUserDetailsAudit | backend/src/controllers/adminController.js:12-73 | updateUserDetails appends its user_update entry (user id and updates) exactly on a 200. A refused body is a 400 that writes nothing. |
| AdminController.UpdateUserDetailsFailures | backend/src/controllers/adminController.js:67-72 | An update naming an unknown column is a 400 with the model's MISSING_COLUMNS message; any other store failure is a 500 that leaves the store as it was. |
| AdminController.UpdateUserDetails | backend/src/controllers/adminController.js:12-73 | updateUserDetails audits exactly its successful updates, refuses a bad body with a 400 that writes nothing, and maps store failures to 400 or 500. Stated by UpdateUserDetailsAudit and UpdateUserDetailsFailures. |
| AdminController.UpdateOneFieldAccepts | backend/src/controllers/adminController.js:75-123 | An accepted value is written to that user's field, audited with the user id, and answered with the handler's success message. |
| AdminController.UpdateUserRoleRejects | backend/src/controllers/adminController.js:77-80 | A role other than 'user' or 'admin' is a 400 "Invalid role" that writes nothing. |
| AdminController.UpdateUserRoleAccepts | backend/src/controllers/adminController.js:82-91 | A known role is stored on the user, audited as role_change, and answered with "Role updated". |
| AdminController.UpdateUserRole | backend/src/controllers/adminController.js:75-98 | updateUserRole stores and audits only 'user' or 'admin'. Stated by UpdateUserRoleRejects and UpdateUserRoleAccepts. |
| AdminController.UpdateUserStatusRejects | backend/src/controllers/adminController.js:102-105 | A status other than 'active' or 'disabled' is a 400 "Invalid status" that writes nothing. |
| AdminController.UpdateUserStatusAccepts | backend/src/controllers/adminController.js:107-116 | A known status is stored on the user, audited as status_change, and answered with "Status updated". |
| AdminController.UpdateUserStatus | backend/src/controllers/adminController.js:100-123 | updateUserStatus stores and audits only 'active' or 'disabled'. Stated by UpdateUserStatusRejects and UpdateUserStatusAccepts. |
| AdminController.DeleteGuard | backend/src/controllers/adminController.js:127-134 | The delete goes ahead exactly when `Number(id)` is non-zero and not NaN, and differs from the caller's `Number(userId)`. The target is that number. |
| AdminController.DeleteUserAsWrittenNeverDeletes | backend/src/controllers/adminController.js:136-151 | As written, no request deletes anything. Every request that passes the guards is a 500, because `Admin.deleteUser` is not exported. |
| AdminController.DeleteUserCases | backend/src/controllers/adminController.js:125-152 | The corrected handler: a bad id is a 400 and deleting yourself is a 400. An unknown user is a 404. Otherwise exactly that user row goes, one audit entry is added, and the answer is "User deleted". |
| AdminController.DeleteUserHandler | backend/src/controllers/adminController.js:125-152 | deleteUser with the delete it expects: 400 for a bad id or the caller's own id, 404 for an unknown user, otherwise the user row goes and is audited. Stated by DeleteUserCases. |
| AdminController.UpdateSettings | backend/src/controllers/adminController.js:189-213 | The loop over the body's keys yields the response and store of the whole handler (writes, audit, fresh settings). |
| AdminController.SaveSettingsHealthy | backend/src/controllers/adminController.js:194-198 | Without a store failure the writes change only settings rows, never which rows exist or any other table. |
| AdminController.SavedRowStep | backend/src/controllers/adminController.js:194-198 | A row's fate under all the keys is its fate under the first key followed by the rest. |
| AdminController.SaveSettingStep | backend/src/controllers/adminController.js:195-197 | One key of the loop changes only the row of an allowed key, and only that row's value. |
| AdminController.SaveSettingsRow | backend/src/controllers/adminController.js:192-198 | A settings row whose key is not allowed or not submitted keeps its value. An allowed submitted key's row takes the serialised submitted value. |
| AdminController.SaveSettingsOnlyAllowed | backend/src/controllers/adminController.js:192-198 | Every settings row ends as SavedRow says: only the four allowed keys are persisted. |
| AdminController.UpdateSettingsAuditsAllKeys | backend/src/controllers/adminController.js:189-209 | Without a failure the answer is 200 and no settings row appears or vanishes. The audit entry lists every submitted key, ignored ones included. Rows of other keys are untouched. |
| AdminController.UpdateSettingsResult | backend/src/controllers/adminController.js:189-213 | updateSettings answers 200 and audits every submitted key. Stated by UpdateSettingsAuditsAllKeys. |
| AdminController.AddIpRuleCases | backend/src/controllers/adminController.js:224-250 | A rule is added exactly when ip is truthy and type is 'allow' or 'deny'. Otherwise a 400 writes nothing. On success the answer is a 201 with the new id, the row holds the ip and type, and one audit entry is added. |
| AdminController.AddIpRuleHandler | backend/src/controllers/adminController.js:224-250 | addIpRule adds and audits a rule exactly for a truthy ip and a known type. Stated by AddIpRuleCases. |
| AdminModel.FirstUnknown | backend/src/models/adminModel.js:40-42 | Finds a key that is not a column of the table, which makes MySQL fail with ER_BAD_FIELD_ERROR. When it finds none, every key is a column. |
| AdminModel.UpdateUser | backend/src/models/adminModel.js:31-49 | A failed update changes nothing, and no update touches the audit log. |
| AdminModel.UpdateUserNothingDefined | backend/src/models/adminModel.js:32-33 | With every field undefined, no query is issued, so nothing changes and nothing fails. |
| AdminModel.UpdateUserErrors | backend/src/models/adminModel.js:39-48 | A bad-field error, from the store or from an unknown column, becomes MISSING_COLUMNS. Any other error is passed through. Either way the store is unchanged. |
| AdminModel.UpdateUserSetsFields | backend/src/models/adminModel.js:31-40 | A successful update gives that user's row every defined field, keeps the set of users, and changes no other user. |
| AdminModel.IncrementSessionVersion | backend/src/models/adminModel.js:51-53 | A failed query changes nothing. |
| AdminModel.IncrementSessionVersionOnlyThatUser | backend/src/models/adminModel.js:51-53 | That one user's session_version goes up by exactly one; every other column and every other user is unchanged. |
| AdminModel.AuditLimitClamp | backend/src/models/adminModel.js:56 | The limit is at most 200. NaN gives 50, and a number gives min(number, 200). There is no lower bound. |
| AdminModel.AuditLimitOfQuery | backend/src/models/adminModel.js:56 | An absent limit reads 50 entries; a numeral string n reads min(n, 200). |
| AdminModel.GetAuditLogs | backend/src/models/adminModel.js:55-62 | Entries come newest first. There are at most 200 of them and no more than exist. Without a store failure the query succeeds exactly when the clamped limit is not negative; it then returns exactly the clamped limit of entries when that many exist, and every entry otherwise. |
| AdminModel.AuditRow | backend/src/models/adminModel.js:64-69 | Details are stored only when truthy. A falsy actor, ip or user agent is stored as NULL. The action is stored as given. |
| AdminModel.AddAuditLog | backend/src/models/adminModel.js:64-70 | A failed insert changes nothing; otherwise the entry is appended and nothing else changes. |
| AdminModel.GetUsers | backend/src/models/adminModel.js:3-29 | An error other than ER_BAD_FIELD_ERROR is rethrown. The full query without error lists one row per user. After a bad-field error the fallback query's own error is rethrown, and the call fails exactly when that query fails. |
| AdminModel.GetUsersFallbackDefaults | backend/src/models/adminModel.js:10-25 | When its own query succeeds, the fallback lists every user exactly once, highest id first. Each user appears as its id and email plus the listed defaults. |
| AdminModel.IdsCoverTable | backend/src/models/adminModel.js:6 | `ORDER BY id DESC` over a valid table lists each row exactly once. |
| AdminModel.GetSettings | backend/src/models/adminModel.js:72-83 | The forEach over the rows builds the settings object of SettingsBelow. |
| AdminModel.SettingsBelowValues | backend/src/models/adminModel.js:74-81 | Every row's key maps to its parsed value, or to its raw text when JSON.parse throws. No other key appears. |
| AdminModel.UpdateSetting | backend/src/models/adminModel.js:85-90 | A failed update changes nothing, and only the settings table ever changes. |
| AdminModel.UpdateSettingOnlyThatKey | backend/src/models/adminModel.js:85-90 | Only the row with that key changes. It takes the serialised value, and updated_by is the given id, or NULL when that is falsy. No row is created. |
| AdminModel.AddIpRule | backend/src/models/adminModel.js:97-103 | The new rule gets the next id, with NULL for a falsy description or creator. A failed insert changes nothing. |
| AdminModel.DeleteUser | backend/src/controllers/adminController.js:136-149 | The delete the controller expects: a failure changes nothing. |
| AdminModel.DeleteUserRemovesExactlyOne | backend/src/controllers/adminController.js:136-149 | Exactly the row with that id goes, and the other rows keep their values. NOT_FOUND is raised exactly when no row had that id. |
| BoardModel.CreateBoardQuery | backend/src/models/boardModel.js:4-16 | The INSERT puts the board under the next id with the given owner and changes nothing else. A failure changes nothing and becomes 'Error creating board'. |
| BoardModel.GetBoardById | backend/src/models/boardModel.js:18-39 | A row is returned only for a board with that id and that owner whose owner is in users, joined with the owner's email. A failure becomes 'Error fetching board: ' plus the message. |
| BoardModel.GetAllBoards | backend/src/models/boardModel.js:41-56 | A failure becomes 'Error fetching boards'. |
| BoardModel.OwnedIds | backend/src/models/boardModel.js:47 | `WHERE boards.user_id = ?` keeps exactly the ids of that owner's boards, and keeps a decreasing id scan decreasing, so without repeats. |
| BoardModel.UpdateBoardQuery | backend/src/models/boardModel.js:58-70 | A failure changes nothing and becomes 'Error updating board'. |
| BoardModel.DeleteBoardQuery | backend/src/models/boardModel.js:72-81 | The two DELETEs fail separately, and either failure becomes 'Error deleting board'. A failing tasks DELETE changes nothing. A failing boards DELETE leaves the board's tasks deleted and the board itself kept. |
| BoardModel.CreateBoardRecordsOwner | backend/src/models/boardModel.js:7-10 | A new board gets a fresh id and belongs to its creator. Existing boards, tasks and users are unchanged, and the store stays valid. |
| BoardModel.CreatedBoardIsFound | backend/src/models/boardModel.js:7-29 | A created board is read back by its insertId, with its owner's email, when the owner is a user. |
| BoardModel.GetBoardByIdOwnerFilter | backend/src/models/boardModel.js:20-29 | A board is found exactly when the id names a board of that owner and the owner is in users. |
| BoardModel.GetAllBoardsExactlyOwned | backend/src/models/boardModel.js:41-51 | Every listed row is one of the user's boards with its task_count, every board of the user is listed, and no two rows are equal, so `GROUP BY boards.id` lists each board once. |
| BoardModel.TaskCountOfEmptyBoard | backend/src/models/boardModel.js:44-48 | A board without tasks is listed with task_count 0, since COUNT over the LEFT JOIN counts no NULL task ids. |
| BoardModel.UpdateBoardOnlyThatRow | backend/src/models/boardModel.js:61-64 | Only the named board takes the new name and description, and it keeps its owner. The rows changed are 0 exactly when no board has that id. |
| BoardModel.DeleteBoardCascade | backend/src/models/boardModel.js:72-76 | Exactly the tasks of that board and the board itself go; every other task and board stays as it was. |
| BoardModel.TasksOfOtherBoards | backend/src/models/boardModel.js:74 | `DELETE FROM tasks WHERE board_id = ?` keeps exactly the tasks whose board_id does not match, each unchanged. |
| BoardModel.DeleteBoardHalfDone | backend/src/models/boardModel.js:74-80 | When the tasks DELETE succeeds and the boards DELETE fails, the result is 'Error deleting board'. Exactly that board's tasks are gone, and the boards, users and audit log are unchanged. |
| BoardModel.CreateBoard | backend/src/models/boardModel.js:4-16 | The method's new store and result are those of CreateBoardQuery. |
| BoardModel.UpdateBoard | backend/src/models/boardModel.js:58-70 | The method's new store and result are those of UpdateBoardQuery. |
| BoardModel.DeleteBoard | backend/src/models/boardModel.js:72-81 | The two DELETEs run in order on the store, and each may fail. The new store and result are those of DeleteBoardQuery, the half-done case included. |
| BoardController.Caller | backend/src/controllers/boardController.js:21-24 | The owner id the queries compare against is `Number(req.userId)`. A value that is not a number matches no row. |
| BoardController.LookupTruthy | backend/src/controllers/boardController.js:47-50 | Without a store failure the board lookup is truthy exactly for a board the caller owns. |
| BoardController.CreateBoardUnauthorized | backend/src/controllers/boardController.js:9-12 | Without a user id, create and update answer 401 before reading the body and write nothing. |
| BoardController.CreateBoardRejects | backend/src/controllers/boardController.js:15-19 | A missing, falsy or blank name is a 400 that writes nothing. A truthy name that is not a string makes `name.trim()` throw, which is a 500. |
| BoardController.InsertBoardStores | backend/src/controllers/boardController.js:21-26 | The insert adds the board under the next id and answers 201 with the board and its owner's email. |
| BoardController.CreateBoardStores | backend/src/controllers/boardController.js:9-26 | A valid create stores the trimmed name, the description or '', and the caller as owner, and answers 201 with the board read back. |
| BoardController.GetBoardOwnerOnly | backend/src/controllers/boardController.js:45-56 | getBoard answers 404 exactly for a board the caller does not own, and the board otherwise. |
| BoardController.GetBoardsOwnerOnly | backend/src/controllers/boardController.js:36-43 | getBoards answers 200 with exactly the caller's boards. |
| BoardController.UpdateBoardValidatesFirst | backend/src/controllers/boardController.js:69-73 | A bad name is a 400 before any lookup, whatever the store holds or would fail with. |
| BoardController.UpdateBoardNotOwned | backend/src/controllers/boardController.js:75-78 | A board the caller does not own is a 404 and is not written. |
| BoardController.UpdateBoardWrites | backend/src/controllers/boardController.js:75-83 | An owned board gets the trimmed string name, or the non-string name unchanged, and the description or ''. Only that board changes, and the answer is 200. |
| BoardController.StoredNameClean | backend/src/controllers/boardController.js:70-80 | A name that passes the check is stored truthy: trimmed and non-blank when it is a string, unchanged otherwise. |
| BoardController.DeleteBoardOwnerOnly | backend/src/controllers/boardController.js:91-104 | Deletion happens only for a board the caller owns, removing it and its tasks. Every other board answers 404 and writes nothing. |
| BoardController.DeleteBoardLookupFails | backend/src/controllers/boardController.js:93-103 | A failing lookup is a 500 carrying the model's message, before any write. |
| BoardController.DeleteBoardHalfDoneAnswered | backend/src/controllers/boardController.js:93-103 | For a board the caller owns, a failing boards DELETE is a 500 'Error deleting board'. The board stays, and its tasks are already gone. |
| BoardController.CreateBoard | backend/src/controllers/boardController.js:3-34 | createBoard: 401 without a user, 400 for a bad name, otherwise the board is stored and answered 201. Stated by CreateBoardUnauthorized, CreateBoardRejects and CreateBoardStores. |
| BoardController.GetBoards | backend/src/controllers/boardController.js:36-43 | getBoards answers exactly the caller's boards. Stated by GetBoardsOwnerOnly. |
| BoardController.GetBoard | backend/src/controllers/boardController.js:45-56 | getBoard answers 404 for a board the caller does not own, and the board otherwise. Stated by GetBoardOwnerOnly. |
| BoardController.UpdateBoard | backend/src/controllers/boardController.js:58-89 | updateBoard validates the name before any lookup, answers 404 for a board the caller does not own, and otherwise writes only that board. Stated by UpdateBoardValidatesFirst, UpdateBoardNotOwned and UpdateBoardWrites. |
| BoardController.DeleteBoard | backend/src/controllers/boardController.js:91-104 | deleteBoard deletes only a board the caller owns, with its tasks; a failing lookup is a 500 before any write; a failing second DELETE leaves the tasks deleted. Stated by DeleteBoardOwnerOnly, DeleteBoardLookupFails and DeleteBoardHalfDoneAnswered. |
| TaskModel.Bound | backend/src/models/taskModel.js:39-41 | A bound parameter is never undefined: the driver sends undefined as NULL and any other value as it is. |
| TaskModel.GetAllTasks | backend/src/models/taskModel.js:4-11 | A failure becomes 'Error fetching tasks'. |
| TaskModel.NewTask | backend/src/models/taskModel.js:21-23 | The inserted row has no board_id and no user_id, since the INSERT names only title, description and status. |
| TaskModel.CreateTaskQuery | backend/src/models/taskModel.js:14-29 | A falsy title is 'Title is required' and writes nothing. A store failure is 'Error creating task' and writes nothing. |
| TaskModel.NewOwnedTask | backend/src/models/taskModel.js:21-23 | The corrected row carries the body's board_id and the creator's id, and otherwise equals the row as written. |
| TaskModel.CreateOwnedTaskQuery | backend/src/models/taskModel.js:14-29 | Same checks and failures as the insert as written. |
| TaskModel.UpdateTaskQuery | backend/src/models/taskModel.js:32-52 | A falsy id is 'Task ID is required', and any failure writes nothing. |
| TaskModel.DeleteTaskQuery | backend/src/models/taskModel.js:55-71 | A falsy id is 'Task ID is required', and any failure writes nothing. |
| TaskModel.GetAllTasksIsEveryTask | backend/src/models/taskModel.js:6 | Every task is listed, and only tasks are, whatever the caller passes. |
| TaskModel.CreateTaskDefaults | backend/src/models/taskModel.js:21-23 | A new task gets a fresh id and the title. A falsy description is stored as NULL and a falsy status as 'pending'. |
| TaskModel.UpdateTaskOnlyThatRow | backend/src/models/taskModel.js:38-51 | Exactly the named task gets the new title, description and status, with undefined bound as NULL. An id matching no row fails with 'Error updating task', since the affectedRows check throws inside the try. |
| TaskModel.DeleteTaskOnlyThatRow | backend/src/models/taskModel.js:60-70 | Exactly the named task goes. An id matching no row fails with 'Error deleting task' and deletes nothing. |
| TaskModel.CreateTask | backend/src/models/taskModel.js:14-29 | The method's new store and result are those of CreateTaskQuery. |
| TaskModel.UpdateTask | backend/src/models/taskModel.js:32-52 | The method's new store and result are those of UpdateTaskQuery. |
| TaskModel.DeleteTask | backend/src/models/taskModel.js:55-71 | The method's new store and result are those of DeleteTaskQuery. |
| TaskController.BoardFound | backend/src/controllers/taskController.js:24-29 | The board check succeeds exactly when a board with that id belongs to the caller. |
| TaskController.TaskGate | backend/src/controllers/taskController.js:50-61 | The gate passes only for an existing task whose user_id strictly equals the caller's id. |
| TaskController.TaskGateCases | backend/src/controllers/taskController.js:55-61 | Without a failure: 404 exactly for an unknown id, 403 exactly for another user's task, and a pass exactly for the caller's own task. |
| TaskController.AddTaskRequiresFields | backend/src/controllers/taskController.js:17-21 | A falsy title or board_id is a 400 that writes nothing, with either insert. |
| TaskController.AddTaskRequiresOwnedBoard | backend/src/controllers/taskController.js:24-33 | A board that does not exist or belongs to someone else is a 404, and no task is created. |
| TaskController.AddTaskCreates | backend/src/controllers/taskController.js:35-40 | A created task gets the next id. The answer is a 201 carrying that id and the request's board_id. |
| TaskController.UpdateTaskGuards | backend/src/controllers/taskController.js:47-68 | updateTask checks existence, then ownership, and writes only a task the caller owns, answering 'Task updated'. |
| TaskController.DeleteTaskGuards | backend/src/controllers/taskController.js:70-91 | deleteTask checks existence, then ownership, and deletes only a task the caller owns, answering 'Task deleted'. |
| TaskController.GetTasksAnswersEveryTask | backend/src/controllers/taskController.js:3-12 | getTasks answers 200 with every task and only tasks, whichever user asks and whatever board_id is named. A failing query is a 500 'Error fetching tasks'. |
| TaskController.GetTasks | backend/src/controllers/taskController.js:3-12 | getTasks passes getAllTasks through. Stated by GetTasksAnswersEveryTask. |
| TaskController.AddTask | backend/src/controllers/taskController.js:14-45 | addTask: 400 without title or board_id, 404 for a board that is not the caller's, otherwise a 201 for the new task. Stated by AddTaskRequiresFields, AddTaskRequiresOwnedBoard and AddTaskCreates. |
| TaskController.UpdateTask | backend/src/controllers/taskController.js:47-68 | updateTask: 404, then 403, then the write of a task the caller owns. Stated by UpdateTaskGuards. |
| TaskController.DeleteTask | backend/src/controllers/taskController.js:70-90 | deleteTask: 404, then 403, then the delete of a task the caller owns. Stated by DeleteTaskGuards. |
| TaskController.KeyTruthy | backend/src/models/taskModel.js:34-36 | An id that names a row is truthy, so the model's id check never refuses a task the gate found. |
| TaskController.CreatorLockedOut | backend/src/models/taskModel.js:21-23 | As written, a task's own creator is refused with 403 by updateTask and deleteTask, because its user_id is NULL. |
| TaskController.CreatorMayEdit | backend/src/controllers/taskController.js:35 | With the insert that records the creator, the creator may update and delete the new task. |
| FaqModel.CreateQuestion | backend/src/models/faqModel.js:3-9 | A new question gets the next id and status 'open'. Its user_id is the caller's id when truthy, else NULL. A failure writes nothing. |
| FaqModel.ListPublishedFaqs | backend/src/models/faqModel.js:11-16 | A failure is passed on. Otherwise the rows are id, question and answer of PublishedOrder, in that order. |
| FaqModel.PublishedOrderOnlyPublished | backend/src/models/faqModel.js:13 | Only rows with is_published = 1 and a non-NULL answer are listed. |
| FaqModel.PublishedOrderComplete | backend/src/models/faqModel.js:13 | Every published row with an answer is listed, exactly once. |
| FaqModel.PublishedOrderSorted | backend/src/models/faqModel.js:13 | The list is in non-increasing updated_at order. |
| FaqModel.BuildListQuestions | backend/src/models/faqModel.js:18-33 | With a truthy status other than 'all', the statement gets ' WHERE fq.status = ?' and the status is the one parameter. Otherwise there is no filter and no parameter. The ordering by created_at descending always comes last. |
| FaqModel.ListQuestionsPlaceholders | backend/src/models/faqModel.js:24-29 | The clauses after the column list add one placeholder exactly when a parameter is pushed. |
| FaqModel.WhereHasOnePlaceholder | backend/src/models/faqModel.js:25 | The status filter holds exactly one placeholder. |
| FaqModel.OrderByHasNoPlaceholder | backend/src/models/faqModel.js:29 | The ordering clause holds none. |
| FaqModel.UpdateQuestion | backend/src/models/faqModel.js:43-52 | When no field is defined, no query is issued and nothing changes. A failure writes nothing. |
| FaqModel.UpdateQuestionSetsFields | backend/src/models/faqModel.js:43-52 | The question's defined fields take their new values. Its other columns, and every other question, stay as they were. |
| FaqController.ListFaqs | backend/src/controllers/faqController.js:3-10 | A failed read is a 500 'Failed to load FAQs'. Otherwise the answer is a 200 with the published list. |
| FaqController.SubmitQuestionRejects | backend/src/controllers/faqController.js:14-23 | A text that is blank once trimmed is 400 'Question is required'. A shorter one of fewer than 10 UTF-16 code units is 400 'Question is too short'. The answer is 400 exactly when the text is under 10 code units, and nothing is written then. |
| FaqController.MissingQuestionIsRequired | backend/src/controllers/faqController.js:14-15 | A missing, null, false or empty question, or a missing body, coerces to the empty text. |
| FaqController.SubmitQuestionStores | backend/src/controllers/faqController.js:25-33 | An accepted question is stored trimmed, as an open question of the caller (NULL without one). The answer is 201 'Question submitted' with the new id. |
| FaqController.SubmitQuestion | backend/src/controllers/faqController.js:12-37 | submitQuestion refuses a blank or short question with 400 and otherwise stores it trimmed. Stated by SubmitQuestionRejects and SubmitQuestionStores. |
| FaqController.StoredQuestionClean | backend/src/controllers/faqController.js:15 | The stored text has nothing left to trim and is not blank. |
| SqlUpdate.DefinedKeys | backend/src/models/adminModel.js:32 | The keys kept are exactly those whose value is not undefined, and no more than were given. The order is stated by DefinedKeysFilter. |
| SqlUpdate.DefinedKeysFilter | backend/src/models/adminModel.js:32 | `filter` keeps a single key exactly when its value is defined, and distributes over concatenation, so the kept keys keep their order and each appears as often as in the input. |
| SqlUpdate.PlaceholdersMatchValues | backend/src/models/adminModel.js:31-37 | The SET clause has one placeholder per defined key. With the WHERE id placeholder, the statement has exactly as many placeholders as bound values. |
| SqlUpdate.ValuesFollowKeys | backend/src/models/faqModel.js:47-49 | The k-th value is the k-th defined key's value, never undefined, and the id comes last. |
| SqlUpdate.DefinedKeysExact | backend/src/models/faqModel.js:44 | A key is set if and only if it is present with a value other than undefined. |
| SqlUpdate.NoQueryWhenAllUndefined | backend/src/models/adminModel.js:32-33 | Nothing is issued exactly when every field is undefined. |
| SqlUpdate.UpdatedRow | backend/src/models/faqModel.js:51 | Applying the UPDATE gives every defined field its value and leaves every other column as it was. |
| ContactController.Render | backend/src/controllers/contactController.js:42-52 | The html holds the message, with every newline turned into `<br>`, as one paragraph of the template. |
| ContactController.ContactRefusals | backend/src/controllers/contactController.js:21-35 | A missing field is 400 'All fields are required'. A present but invalid address is 400 'Invalid email address'. Neither hands over any mail. |
| ContactController.ContactDelivers | backend/src/controllers/contactController.js:37-79 | Past validation, the handler does exactly the two sends with the submitted form. |
| ContactController.ContactSendOrder | backend/src/controllers/contactController.js:73-79 | The submission goes first, to the configured recipient. The acknowledgement goes to the submitter only after the first send succeeded. The answer is 200 exactly when both were sent, else 500. |
| ContactController.SendContactEmail | backend/src/controllers/contactController.js:16-89 | sendContactEmail validates, then sends the submission and then the acknowledgement, answering 200 only when both were sent. Stated by ContactRefusals, ContactDelivers and ContactSendOrder. |
| ContactController.ContactMessageRendered | backend/src/controllers/contactController.js:49 | Both mails carry the message as given. Its rendering has no newline left and is longer by three characters per newline. |
| ContactController.FailureDetailOnlyInDevelopment | backend/src/controllers/contactController.js:86 | The error detail is present exactly in development, and it is the error's message. |
| AuthMiddleware.Token | backend/src/middleware/authMiddleware.js:5 | There is a token exactly when the authorization header is present and holds a space. |
| AuthMiddleware.NoTokenRefused | backend/src/middleware/authMiddleware.js:5-9 | No header, a header without a space, or an empty second word is 401 'No token provided', whatever verification would say. The token is the second space-separated word. |
| AuthMiddleware.VerifyDecides | backend/src/middleware/authMiddleware.js:11-17 | With a token, verification alone decides. A failure is 401 'Invalid token'. A success passes the request on, changed only in userId, which is the payload's id. |
| AuthMiddleware.Authenticate | backend/src/middleware/authMiddleware.js:4-18 | authenticate refuses a missing token, and otherwise lets verification alone decide. Stated by NoTokenRefused and VerifyDecides. |
| AuthMiddleware.RejectIsUnauthorized | backend/src/middleware/authMiddleware.js:4-18 | Every refusal is a 401, and a passed request differs from the original only in userId. |
| AuthMiddleware.BearerToken | backend/src/middleware/authMiddleware.js:5 | A header `Bearer <token>` hands exactly that token to verification. |
| Email.ValidEmailMatches | backend/src/controllers/contactController.js:29-30 | Every address the checker accepts matches the regular expression read literally: three non-empty runs of `[^@\s]` around an '@' and a '.'. |
| Email.MatchesIsValidEmail | backend/src/controllers/adminController.js:33 | Every string the regular expression matches passes the checker. |
| Email.IsValidEmailIffMatches | frontend/src/pages/register.jsx:23 | The checker accepts exactly the strings the regular expression matches. |
| Email.ValidEmailIsTrimmed | frontend/src/pages/adminUsers.jsx:103 | A valid address has no whitespace, so trimming it changes nothing and it is not blank. |
| DbSetup.EnsureColumnQuery | backend/src/utils/dbSetup.js:3-12 | A present column changes nothing. An absent one is added, and every existing user takes its DEFAULT. A missing table is ER_NO_SUCH_TABLE. A failed query changes nothing. |
| DbSetup.EnsureTableQuery | backend/src/utils/dbSetup.js:14-16 | CREATE TABLE IF NOT EXISTS: an existing table is kept as it is, and a missing one is created with its columns. |
| DbSetup.EnsureSettingQuery | backend/src/utils/dbSetup.js:18-26 | A missing key is inserted with the value under the next id. A present key is never touched. |
| DbSetup.ApplyTwice | backend/src/utils/dbSetup.js:3-26 | Each ensure step, repeated after it succeeded, changes nothing. |
| DbSetup.ApplyErrorKeepsState | backend/src/utils/dbSetup.js:3-26 | A step whose query fails leaves the database as it found it. |
| DbSetup.SetupIdempotent | backend/src/utils/dbSetup.js:28-93 | Running setupDatabase on its own result gives the same database and outcome as running it once. |
| DbSetup.FailureStopsRun | backend/src/utils/dbSetup.js:28-93 | A query failing at step j passes that error on, with the state the earlier steps left. No later step runs. |
| DbSetup.Setup | backend/src/utils/dbSetup.js:28-93 | setupDatabase is idempotent, and a failing step stops it. Stated by SetupIdempotent and FailureStopsRun. |
| DbSetup.SetupFillsUserDefaults | backend/src/utils/dbSetup.js:29-37 | On a users table that lacks them, every existing user gets role 'user', status 'active', failed_login_count 0, lock_until NULL and session_version 0. |
| DbSetup.SetupSeedsSecurity | backend/src/utils/dbSetup.js:84-92 | On a settings table without them, setup stores lockAfterFailed 5 with lockMinutes 15, and maintenance disabled. |
| DbSetup.SetupKeepsSettings | backend/src/utils/dbSetup.js:72-92 | A settings row that exists is never overwritten by setup. |
| DbSetup.EnsureColumn | backend/src/utils/dbSetup.js:3-12 | The database in place, and the result, are those of EnsureColumnQuery. |
| DbSetup.EnsureTable | backend/src/utils/dbSetup.js:14-16 | The database in place, and the result, are those of EnsureTableQuery. |
| DbSetup.EnsureSetting | backend/src/utils/dbSetup.js:18-26 | The database in place, and the result, are those of EnsureSettingQuery. |
| DbSetup.AddAccountColumns | backend/src/utils/dbSetup.js:29-33 | In place, the first five ensureColumn calls in order, stopping at the first error. |
| DbSetup.AddLoginColumns | backend/src/utils/dbSetup.js:34-37 | In place, the last four ensureColumn calls in order, stopping at the first error. |
| DbSetup.AddUserColumns | backend/src/utils/dbSetup.js:29-37 | In place, the nine ensureColumn calls in order, stopping at the first error. |
| DbSetup.CreateTables | backend/src/utils/dbSetup.js:39-70 | In place, the three ensureTable calls in order, stopping at the first error. |
| DbSetup.SeedSettings | backend/src/utils/dbSetup.js:72-92 | In place, the four ensureSetting calls in order, stopping at the first error. |
| DbSetup.SetupDatabase | backend/src/utils/dbSetup.js:28-93 | In place: columns, then tables, then settings, with the first error ending the run. The result equals the pure run of all sixteen steps. |
| AuthService.AuthHeader | frontend/src/services/auth.jsx:29-35 | The header is `{}` exactly when no token is stored. Otherwise it is `Authorization: Bearer <token>`. |
| AuthService.AuthHeaderReachesMiddleware | frontend/src/services/auth.jsx:34 | For a stored token without spaces, the server's middleware extracts exactly that token from the header. |
| AuthService.Login | frontend/src/services/auth.jsx:5-27 | login after its POST. It resolves as LoginResult says. Only on success are the token and the serialised user written, and storage is otherwise unchanged. |
| AuthService.LoginRequiresTokenAndUser | frontend/src/services/auth.jsx:12-22 | login succeeds exactly when the answer holds a truthy token and user, and it returns both. An answer without them is 'Invalid response from server'. |
| AuthService.HandleUnauthorized | frontend/src/services/auth.jsx:37-41 | Both 'token' and 'user' are removed, nothing else, and the page goes to /login. |
| AuthService.RegisterPayload | frontend/src/services/auth.jsx:43-50 | The body has exactly the keys first_name, last_name, email and password. |
| AuthService.ResetPayload | frontend/src/services/auth.jsx:77-83 | The body has exactly the keys email, code and new_password. |
| AuthService.PayloadsRename | frontend/src/services/auth.jsx:45-50 | firstName and lastName are sent as first_name and last_name, and newPassword as new_password. The other values pass unchanged. |
| AuthService.ResetRequestConfig | frontend/src/services/auth.jsx:62-63 | The config holds headers exactly when a token is stored, and they are getAuthHeader's. |
| AuthService.ErrorPrecedence | frontend/src/services/auth.jsx:55 | The server's error comes first, then its details (register only), then the error's own message, then the fixed default of each call. |
| AuthService.Stored | frontend/src/services/auth.jsx:94-95 | A stored value is truthy exactly when the key is present with a non-empty text. |
| AuthService.CheckAuthStateCases | frontend/src/services/auth.jsx:93-109 | Authenticated exactly when the token is stored and the stored user parses to a truthy value. An unparseable user gives `{false, null, null}`. When authenticated, the token and the parsed user are returned. |
| AuthService.CheckAuthState | frontend/src/services/auth.jsx:93-110 | checkAuthState reports a session exactly when the token is stored and the user parses to a truthy value. Stated by CheckAuthStateCases. |
| BrowserStorage.GetItem | frontend/src/services/auth.jsx:30 | The stored text exactly when the key is present. |
| AuthContext.InitialUser | frontend/src/context/authContext.js:6-14 | A user is restored only when both 'user' and 'token' are stored. It is then the parsed stored user. Otherwise, or on a parse failure, it is null. |
| AuthContext.SyncedUser | frontend/src/context/authContext.js:42-55 | The effect either keeps the user or clears it, and it clears it whenever either key is missing. |
| AuthContext.LoginSurvivesSync | frontend/src/context/authContext.js:19-21 | After a login that stored both values, the effect keeps the user it set. |
| AuthContext.LogoutStaysCleared | frontend/src/context/authContext.js:35-39 | After a logout the effect finds no session, whatever user it sees. |
| AuthContext.AuthProvider.constructor | frontend/src/context/authContext.js:5-14 | The provider starts with the user InitialUser gives for the stored items. |
| AuthContext.AuthProvider.Login | frontend/src/context/authContext.js:16-33 | The token and the serialised user are written, nothing else changes in storage, and the user is set to the given one. |
| AuthContext.AuthProvider.Logout | frontend/src/context/authContext.js:35-39 | Exactly 'token' and 'user' are removed, and the user is null. |
| AuthContext.AuthProvider.Sync | frontend/src/context/authContext.js:42-55 | The user becomes SyncedUser of the stored items and the current user. |
| AdminRoute.GuardCases | frontend/src/components/adminRoute.jsx:8-16 | The children render exactly for a user whose role is the string 'admin'. No user goes to /login with state.from set to the location. Any other user goes to /dashboard. Every redirect replaces the entry, and an absent user never reaches /dashboard. |
| AdminRoute.Guard | frontend/src/components/adminRoute.jsx:4-17 | The route renders its children only for an admin, and sends others to /login or /dashboard. Stated by GuardCases. |
| Dashboard.IndexIn | frontend/src/pages/dashboard.jsx:36 | indexOf: the first position of the status, or -1 exactly when it is absent. |
| Dashboard.NextStatusCycle | frontend/src/pages/dashboard.jsx:35-37 | pending goes to in-progress, in-progress to completed and completed to pending. A status outside the cycle, at index -1, goes to pending. The next status is always in the cycle. |
| Dashboard.ThreeTogglesReturn | frontend/src/pages/dashboard.jsx:35-37 | Three toggles bring each status of the cycle back to itself. |
| Dashboard.CurrentStatus | frontend/src/pages/dashboard.jsx:36 | A missing or falsy status counts as 'pending', and a string status is lower-cased. |
| Dashboard.TaskUpdate | frontend/src/pages/dashboard.jsx:38 | The sent task has the new status and the board id, and every other property it had. |
| Dashboard.OptionalTrim | frontend/src/pages/dashboard.jsx:88-89 | The result is undefined or a text with nothing left to trim. |
| Dashboard.ObjectPayload | frontend/src/pages/dashboard.jsx:89-94 | A falsy name is refused with 'Board name is required'. A truthy name is sent with the given description, or the default 'Board for <name> tasks' when it is blank. |
| Dashboard.StringBoardPayload | frontend/src/pages/dashboard.jsx:82-86 | A string input is the name as it is, with the description 'Board for <input> tasks'. |
| Dashboard.ObjectBoardPayload | frontend/src/pages/dashboard.jsx:88-94 | From an object, the name is trimmed, and a blank one is refused with 'Board name is required'. A blank or missing description becomes the default built from the trimmed name. |
| Dashboard.ObjectBoardPayloadReads | frontend/src/pages/dashboard.jsx:88-89 | An object's payload is built from its trimmed name and its trimmed description. |
| Dashboard.BoardPayloadNameNotBlank | frontend/src/pages/dashboard.jsx:90-94 | An object payload never carries a blank or untrimmed name. |
| Dashboard.MakeBoardPayload | frontend/src/pages/dashboard.jsx:81-95 | handleCreateBoard's payload for a string and for an object input. Stated by StringBoardPayload, ObjectBoardPayload and BoardPayloadNameNotBlank. |
| Dashboard.StatusCount | frontend/src/pages/dashboard.jsx:273 | A count never exceeds the number of tasks. |
| Dashboard.PendingAndCompletedBounded | frontend/src/pages/dashboard.jsx:265-281 | The pending and completed cards together never count more than the total. |
| Dashboard.CountsAreExact | frontend/src/pages/dashboard.jsx:273 | The cards match exactly: a task stored as 'Pending' is in neither, though the toggle treats it as pending. |
| Dashboard.Find | frontend/src/pages/dashboard.jsx:194 | A found task is in the list with that id. None means no task of the list has that id. |
| Dashboard.DashboardPage.constructor | frontend/src/pages/dashboard.jsx:12-27 | The page starts with no tasks, no boards, no active board and no error. |
| Dashboard.DashboardPage.ToggleStatus | frontend/src/pages/dashboard.jsx:33-44 | The next status of the cycle is sent with the active board's id. Only after both the update and the reload succeed are the tasks replaced. Any failure, including a status that is not a text, sets only 'Failed to update task status'. |
| Dashboard.DashboardPage.CreateBoard | frontend/src/pages/dashboard.jsx:78-104 | A refused payload only sets its message and sends nothing. Otherwise the payload is sent. Success replaces the boards and activates the new board. A failure shows the error's message, else 'Failed to create board', and keeps both. |
| Dashboard.DashboardPage.MoveTask | frontend/src/pages/dashboard.jsx:193-210 | Nothing is sent, and nothing changes, exactly for an unknown task, no active board id, or a task whose lower-cased status is already the target. Otherwise that task is sent with the new status. The tasks are replaced once both calls succeed, else 'Failed to move task'. The boards are never touched. |
| Dashboard.DashboardPage.DeleteBoard | frontend/src/pages/dashboard.jsx:122-136 | Declining the confirmation changes nothing. After a delete and reload the boards are replaced. Only when the deleted board was the active one are the active board and the tasks cleared. A failure sets only 'Failed to delete board'. |
| TaskList.RenderPrecedence | frontend/src/components/taskList.jsx:5-21 | Loading wins over an error, and an error over the empty-list message. The grid shows exactly when none of the three applies and every card can be built. Past the three, the render throws exactly when some task lacks a text status or a text priority. |
| TaskList.Render | frontend/src/components/taskList.jsx:5-21 | The component's four views, or a throw. Stated by RenderPrecedence and ServedTasksThrow. |
| TaskList.TaskCard | frontend/src/components/taskList.jsx:56-97 | A card is built exactly when the task's status and priority are both strings; otherwise one of the four calls throws. |
| TaskList.Cards | frontend/src/components/taskList.jsx:55 | `tasks.map(...)` gives one card per task, in order, and throws exactly when some card throws. |
| TaskList.ServedTasksThrow | backend/src/models/taskModel.js:6 | Under a tasks table without a priority column, the rows getAllTasks serves have no priority property, so a non-empty list of them makes the grid throw. |
| TaskList.PriorityColor | frontend/src/components/taskList.jsx:23-30 | getPriorityColor: undefined, null or any other non-string throws. Stated by PriorityColorCases. |
| TaskList.StatusLabel | frontend/src/components/taskList.jsx:44-51 | getStatusLabel: a non-string throws. Stated by StatusLabelCases. |
| TaskList.PriorityColorCases | frontend/src/components/taskList.jsx:23-30 | A priority that is not a string, undefined and null included, throws. For a string, high, medium and low in any letter case map to their colours, each exactly. Every other text is #6c757d. The colour depends only on the lower-cased text. |
| TaskList.StatusIcon | frontend/src/components/taskList.jsx:32-42 | A status that is not a string throws. For a string, completed and in-progress, in any case, get the check and the clock. pending and every other text share the grey circle, as an if-and-only-if each. |
| TaskList.StatusLabelCases | frontend/src/components/taskList.jsx:44-51 | A status that is not a string throws. 'in-progress' in any case reads 'In Progress'. Any other text keeps its length and its tail, with the first character upper-cased. |
| TaskList.PriorityBadge | frontend/src/components/taskList.jsx:94 | A priority that is not a string throws. Otherwise the badge is the priority with its first character upper-cased, followed by ' Priority'. |
| TaskList.StatusVariant | frontend/src/components/taskList.jsx:85 | 'success' exactly for 'completed' and 'warning' exactly for 'in-progress', compared exactly. Anything else is 'secondary'. |
| TaskList.IconAndBadgeDisagreeOnCase | frontend/src/components/taskList.jsx:33-35 | A task stored as 'Completed' gets the completed icon but the neutral badge. |
| RegisterPage.ValidateCases | frontend/src/pages/register.jsx:18-36 | A form passes exactly when both names are non-blank, the untrimmed email matches the rule, and the password has at least 8 code units and equals its confirmation. Each failure reports the earliest check in that order. |
| RegisterPage.SubmitOnlyWhenValid | frontend/src/pages/register.jsx:38-56 | No request is made for an invalid form, which shows its first failing check. A valid form posts the register payload. Success leads to /login with 'Registration successful. Please sign in.', and a failure shows an error. |
| RegisterPage.Validate | frontend/src/pages/register.jsx:18-36 | The register form's checks, the earliest failure reported. Stated by ValidateCases. |
| RegisterPage.HandleSubmit | frontend/src/pages/register.jsx:38-56 | Only a valid form is posted. Stated by SubmitOnlyWhenValid. |
| RegisterPage.SubmittedUnderServerNames | frontend/src/pages/register.jsx:47 | The request carries the form's values, untrimmed, under first_name, last_name, email and password. |
| RegisterPage.FailureMessage | frontend/src/pages/register.jsx:52 | A failed registration shows the service's message. The page's own fallback appears only when that message is empty. |
| ForgotPassword.SanitiseCode | frontend/src/pages/forgotPassword.jsx:160 | The code is all digits and at most 6 long. It is a prefix of the typed digits in order, and it has exactly 6 when at least six digits were typed. |
| ForgotPassword.SanitiseIdempotent | frontend/src/pages/forgotPassword.jsx:160 | Sanitising a sanitised code changes nothing. |
| ForgotPassword.DigitsAreOneUnitEach | frontend/src/pages/forgotPassword.jsx:193 | A digit-only code is as long in UTF-16 code units as in characters. |
| ForgotPassword.LocalCheckCases | frontend/src/pages/forgotPassword.jsx:57-65 | The local checks pass exactly when the new password has at least 8 code units and equals its confirmation. A short password is reported first, whatever the confirmation. |
| ForgotPassword.Shown | frontend/src/pages/forgotPassword.jsx:46 | The thrown message when it is non-empty, else the page's default. |
| ForgotPassword.MountEffect | frontend/src/pages/forgotPassword.jsx:20-33 | The email is locked exactly with a stored token and a stored user that parses and has a truthy email, which becomes the email as a trimmed string. A stored user that does not parse unlocks the field. |
| ForgotPassword.ResetPage.constructor | frontend/src/pages/forgotPassword.jsx:10-18 | Step 1, every field empty, not loading, not locked. |
| ForgotPassword.ResetPage.Prefill | frontend/src/pages/forgotPassword.jsx:20-33 | The mount effect applied to the email and the lock, as MountEffect decides. |
| ForgotPassword.ResetPage.EditEmail | frontend/src/pages/forgotPassword.jsx:119-126 | The email takes the typed value only when its input is enabled: never while loading, and not in step 1 when it is locked. |
| ForgotPassword.ResetPage.EditCode | frontend/src/pages/forgotPassword.jsx:154-163 | The code becomes the sanitised input unless loading. It stays at most six digits. |
| ForgotPassword.ResetPage.EditPasswords | frontend/src/pages/forgotPassword.jsx:166-187 | The password fields take the typed values unless loading. |
| ForgotPassword.ResetPage.SendCode | frontend/src/pages/forgotPassword.jsx:35-50 | The trimmed email is requested. step, success and error follow AfterSend, and loading ends false. |
| ForgotPassword.ResetPage.ResetPassword | frontend/src/pages/forgotPassword.jsx:52-84 | A failed local check shows its message and sends nothing. Otherwise the trimmed email and code and the new password are sent, and navigation and error follow AfterReset. |
| ForgotPassword.ResetPage.Resend | frontend/src/pages/forgotPassword.jsx:197-203 | Back to step 1, unless loading. |
| ForgotPassword.AfterSendCases | frontend/src/pages/forgotPassword.jsx:42-46 | Step 2 is reached only by a sent code, and it shows the server's message or the page's own with no error. A failure stays on the step, with no success message and the thrown message or 'Failed to send verification code'. |
| ForgotPassword.AfterResetCases | frontend/src/pages/forgotPassword.jsx:69-80 | A successful reset goes to /login with replace and the server's message, or 'Password reset successful. Please sign in.'. A failure stays, with the thrown message or 'Failed to reset password'. |
| ForgotPassword.ResetFieldsPosted | frontend/src/services/auth.jsx:79-83 | The service posts the three values under email, code and new_password. |
| ForgotPassword.ResetRequestValues | frontend/src/pages/forgotPassword.jsx:69-73 | The server receives the email and code trimmed and the new password untouched. A code typed through the field has nothing to trim. |
| ForgotPassword.EnabledResetHasSixDigits | frontend/src/pages/forgotPassword.jsx:193 | With the reset button enabled, the code is exactly six digits, so at least six digits were typed. |
| AdminUsers.FieldText | frontend/src/pages/adminUsers.jsx:102 | A falsy value reads as the empty text, and a string reads trimmed. |
| AdminUsers.ValidateEditCases | frontend/src/pages/adminUsers.jsx:102-111 | An edit passes exactly when the trimmed email is valid and neither name is blank. An invalid email is reported first. |
| AdminUsers.ValidateAddCases | frontend/src/pages/adminUsers.jsx:133-147 | An addition passes exactly when the edit checks pass and the password, as a string, is not blank and has at least 8 code units. The password is checked last, and a missing one fails. |
| AdminUsers.ValidateEdit | frontend/src/pages/adminUsers.jsx:100-111 | The edit dialog's checks. Stated by ValidateEditCases. |
| AdminUsers.ValidateAdd | frontend/src/pages/adminUsers.jsx:132-147 | The add dialog's checks, the password last. Stated by ValidateAddCases. |
| AdminUsers.Payload | frontend/src/pages/adminUsers.jsx:114-120 | There is a body exactly when both names are strings, since `.trim()` throws otherwise. |
| AdminUsers.UserFieldsPosted | frontend/src/pages/adminUsers.jsx:150-157 | Each field is sent under its own name. Only the add body has a password. |
| AdminUsers.PayloadTrimmed | frontend/src/pages/adminUsers.jsx:114-120 | The names and the email go trimmed and role and status as they are. Only from the add dialog, the password goes unmodified. |
| AdminUsers.EditFormOf | frontend/src/pages/adminUsers.jsx:65-75 | Missing or empty names and email become '', the role 'user' and the status 'active'. |
| AdminUsers.SaveCases | frontend/src/pages/adminUsers.jsx:113-127 | A failed check sends nothing and shows its message. Otherwise the body is sent. The dialog closes, and the list changes, only once both the write and the reload succeed. Every failure shows the server's error or the fallback. |
| AdminUsers.Save | frontend/src/pages/adminUsers.jsx:98-128 | A save sends only a form that passes its checks, and closes the dialog only once the write and the reload succeed. Stated by SaveCases. |
| AdminUsers.EditSavedNeedsUser | frontend/src/pages/adminUsers.jsx:100 | Without an editing user, the edit save sends nothing and changes nothing. |
| AdminUsers.EditSavedSendsNoPassword | frontend/src/pages/adminUsers.jsx:114-120 | A valid edit sends its body, which has no password. |
| AdminUsers.AddSavedSendsPassword | frontend/src/pages/adminUsers.jsx:150-157 | A valid addition sends its body with the password as typed. |
| AdminUsers.AdminUsersPage.OpenEdit | frontend/src/pages/adminUsers.jsx:65-75 | The dialog opens on the user, with EditFormOf's copy. |
| AdminUsers.AdminUsersPage.OpenAdd | frontend/src/pages/adminUsers.jsx:77-87 | The add dialog opens on the blank form. |
| AdminUsers.AdminUsersPage.CloseEdit | frontend/src/pages/adminUsers.jsx:89-92 | The dialog closes and no user is being edited. |
| AdminUsers.AdminUsersPage.EditSave | frontend/src/pages/adminUsers.jsx:98-128 | As EditSaved decides, sent to the editing user's id. The dialog closes only once the save is complete. |
| AdminUsers.AdminUsersPage.AddSave | frontend/src/pages/adminUsers.jsx:130-165 | As AddSaved decides, and the dialog closes only once the save is complete. |
| AdminDashboard.RulePayloadPosted | frontend/src/pages/adminDashboard.jsx:84 | The rule is posted as typed, with ip, type and description. |
| AdminDashboard.DefaultSettingsValues | frontend/src/pages/adminDashboard.jsx:21-26 | The initial settings have the four sections defaults, features, maintenance and security. The security section locks after 5 failures for 15 minutes, and maintenance starts disabled. |
| AdminDashboard.MergedSettings | frontend/src/pages/adminDashboard.jsx:41-44 | A section the server sent replaces the page's, and a section it did not send keeps its earlier value. |
| AdminDashboard.FirstLoadKeepsDefaultSecurity | frontend/src/pages/adminDashboard.jsx:21-26 | A first load that lacks the security section leaves the default section in place. |
| AdminDashboard.NextStatus | frontend/src/pages/adminDashboard.jsx:60 | The toggle always yields 'active' or 'disabled'. |
| AdminDashboard.StatusToggleFlips | frontend/src/pages/adminDashboard.jsx:60 | 'disabled' goes to 'active' and anything else to 'disabled', so two toggles restore a known status. A user shown without a status is toggled to 'disabled'. |
| AdminDashboard.DisplayStatus | frontend/src/pages/adminDashboard.jsx:119 | The status shown is the user's when truthy, else 'active'. |
| AdminDashboard.DisplayRole | frontend/src/pages/adminDashboard.jsx:120 | The role shown is the user's when truthy, else 'user'. |
| AdminDashboard.UpdateMatching | frontend/src/pages/adminDashboard.jsx:56 | The list keeps its length. |
| AdminDashboard.UpdateMatchingOnlyThatUser | frontend/src/pages/adminDashboard.jsx:56-67 | Only the rows with that id change, and only in that key. Every other row is the very same object, and the order is kept. |
| AdminDashboard.UpdateMatchingKeepsIds | frontend/src/pages/adminDashboard.jsx:62 | A change of any key but id keeps every row's id. |
| AdminDashboard.WithoutId | frontend/src/pages/adminDashboard.jsx:92 | The filtered list is never longer. |
| AdminDashboard.WithoutIdExactly | frontend/src/pages/adminDashboard.jsx:92 | Exactly the rules with that id go. Every other rule stays as often as it was there, and a list without that id is kept as it is. |
| AdminDashboard.AdminDashboardPage.constructor | frontend/src/pages/adminDashboard.jsx:19-29 | The page starts empty, with the default settings and the blank rule form. |
| AdminDashboard.AdminDashboardPage.LoadData | frontend/src/pages/adminDashboard.jsx:31-52 | When all four loads resolve, the lists are replaced and the settings spread over the page's. When any rejects, only 'Failed to load admin data.' is set. |
| AdminDashboard.AdminDashboardPage.RoleChange | frontend/src/pages/adminDashboard.jsx:54-57 | After the PATCH resolves, the users with that id take the role. A rejection changes nothing. |
| AdminDashboard.AdminDashboardPage.StatusToggle | frontend/src/pages/adminDashboard.jsx:59-63 | The flipped status is sent, then set on the users with that id. |
| AdminDashboard.AdminDashboardPage.ForceReset | frontend/src/pages/adminDashboard.jsx:65-68 | Once the call resolves, the users with that id have force_password_reset 1. |
| AdminDashboard.AdminDashboardPage.RevokeSessions | frontend/src/pages/adminDashboard.jsx:70-73 | Only the message changes, and only once the call has resolved. |
| AdminDashboard.AdminDashboardPage.SettingsSave | frontend/src/pages/adminDashboard.jsx:75-79 | Every section is sent, and the server's answer replaces the settings whole, with 'Settings updated.'. |
| AdminDashboard.AdminDashboardPage.EditSettings | frontend/src/pages/adminDashboard.jsx:182-186 | The section's key takes the value. SetNestedOnlyThatKey keeps the rest. |
| AdminDashboard.AdminDashboardPage.EditRule | frontend/src/pages/adminDashboard.jsx:209-223 | The rule form takes the typed values. |
| AdminDashboard.AdminDashboardPage.AddIpRule | frontend/src/pages/adminDashboard.jsx:81-88 | A blank or whitespace-only ip sends nothing and changes nothing. Otherwise the form is posted. Once that resolves the form resets to the blank rule, and once the refetch resolves its rules replace the list. |
| AdminDashboard.AdminDashboardPage.RemoveIpRule | frontend/src/pages/adminDashboard.jsx:90-93 | Once the DELETE resolves, the rules with that id leave the list. |
| JsValues.SetNestedOnlyThatKey | frontend/src/pages/adminFaq.jsx:23-29 | After `{ ...o, [outer]: { ...o[outer], [key]: value } }`, the key holds the value. Every other key of that section, and every other section, is as it was. |
| AdminSecurity.SecurityRequest | frontend/src/pages/adminSecurity.jsx:30 | The body holds only the security section, exactly as the page has it. |
| AdminSecurity.ShownLockAfterFailed | frontend/src/pages/adminSecurity.jsx:64 | The input shows the stored threshold when truthy, else 5. |
| AdminSecurity.ShownLockMinutes | frontend/src/pages/adminSecurity.jsx:77 | The input shows the stored duration when truthy, else 15. |
| AdminSecurity.ShownFallbacks | frontend/src/pages/adminSecurity.jsx:5-7 | A stored 0, or no security section at all, shows 5 and 15, which the initial state shows too. |
| AdminSecurity.EditLockShown | frontend/src/pages/adminSecurity.jsx:65-81 | Typing a number shows it in that input, or the default when it is 0. The other input and the other sections stay as they were. |
| AdminSecurity.SavedSecurityShown | frontend/src/pages/adminSecurity.jsx:31 | After a save, the inputs show the security values the server returned. When the server left security out, they show the page's. |
| AdminSecurity.AdminSecurityPage.constructor | frontend/src/pages/adminSecurity.jsx:5-10 | The page starts with only the default security section, no rules and the blank rule form. |
| AdminSecurity.AdminSecurityPage.LoadData | frontend/src/pages/adminSecurity.jsx:12-27 | When both loads resolve, the settings are spread over the page's and the rules replace the list. When either rejects, only 'Failed to load security settings.' is set. |
| AdminSecurity.AdminSecurityPage.Save | frontend/src/pages/adminSecurity.jsx:29-33 | Only the security section is sent. The sections returned are spread over the page's, with 'Security settings updated.'. |
| AdminSecurity.AdminSecurityPage.EditLock | frontend/src/pages/adminSecurity.jsx:65-81 | The security section's key takes the number, and nothing else changes. |
| AdminSecurity.AdminSecurityPage.EditRule | frontend/src/pages/adminSecurity.jsx:94-109 | The rule form takes the typed values. |
| AdminSecurity.AdminSecurityPage.AddIpRule | frontend/src/pages/adminSecurity.jsx:35-42 | A blank ip sends nothing. Otherwise the form is posted and then reset, and the refetched rules replace the list. |
| AdminSecurity.AdminSecurityPage.RemoveIpRule | frontend/src/pages/adminSecurity.jsx:44-47 | Once the DELETE resolves, exactly the rules with that id leave the list. |
| AdminFaq.DraftFor | frontend/src/pages/adminFaq.jsx:33 | The draft read for a question is always an object, `{}` when there is none. |
| AdminFaq.UpdateDraftOnlyThatField | frontend/src/pages/adminFaq.jsx:22-30 | Only the named field of that question's draft changes. The draft's other fields, and every other question's draft, stay as they were. |
| AdminFaq.DraftOr | frontend/src/pages/adminFaq.jsx:35-37 | The draft's value whenever it is not undefined, else the fallback. |
| AdminFaq.SavePayload | frontend/src/pages/adminFaq.jsx:34-38 | The payload has exactly answer, is_published and status. |
| AdminFaq.PayloadAsShown | frontend/src/pages/adminFaq.jsx:82-85 | The payload's three values are the ones the card shows. |
| AdminFaq.NoDraftSendsStored | frontend/src/pages/adminFaq.jsx:33-38 | Without a draft the question is sent as stored: '' for a missing answer, the truthiness of is_published, and 'open' for a missing status. |
| AdminFaq.EditedFieldIsSent | frontend/src/pages/adminFaq.jsx:35-37 | A field edited in the draft is sent as edited, even when it is '' or false. |
| AdminFaq.FalsyDraftOverrides | frontend/src/pages/adminFaq.jsx:35-36 | An empty answer or an unpublished flag in the draft wins over what is stored. |
| AdminFaq.AdminFaqPage.constructor | frontend/src/pages/adminFaq.jsx:5-9 | The page starts with no questions, no drafts, loading, and the filter 'all'. |
| AdminFaq.AdminFaqPage.LoadEffect | frontend/src/pages/adminFaq.jsx:11-20 | The list is fetched with the current filter. A rejection shows 'Failed to load FAQ questions.', and loading ends either way. |
| AdminFaq.AdminFaqPage.SetFilter | frontend/src/pages/adminFaq.jsx:64 | The filter takes the selected value. |
| AdminFaq.AdminFaqPage.EditDraft | frontend/src/pages/adminFaq.jsx:115-137 | The drafts become UpdateDraft of the edited field. |
| AdminFaq.AdminFaqPage.Save | frontend/src/pages/adminFaq.jsx:32-48 | The payload is sent for the question's id, and the list is reloaded with the current filter, with 'FAQ updated.'. A rejection of either shows the server's error, else 'Failed to update FAQ.'. |
| FaqPage.Rejection | frontend/src/pages/faq.jsx:30-39 | Without a user: 'Please sign in to submit a question.'. With one, the question is refused exactly when its trimmed text is under 10 code units, with 'Please enter a longer question.'. |
| FaqPage.SentQuestionAccepted | frontend/src/pages/faq.jsx:35-43 | A question the page sends passes the server's checks: the server reads back exactly the trimmed text and answers 201. |
| FaqPage.GuardsAgree | frontend/src/pages/faq.jsx:36 | For a signed-in user, the page refuses a question exactly when the server would answer 400 to its trimmed text. |
| FaqPage.Toggle | frontend/src/pages/faq.jsx:84 | The clicked item is open afterwards exactly when it was not open before. No other item is ever opened. |
| FaqPage.ToggleTwice | frontend/src/pages/faq.jsx:84 | Two clicks on an item give back its state, and close every other item. |
| FaqPage.FaqPageState.constructor | frontend/src/pages/faq.jsx:10-15 | Nothing is open and nothing is typed, and the page is loading. |
| FaqPage.FaqPageState.Mount | frontend/src/pages/faq.jsx:17-26 | The published FAQs replace the list, or 'Failed to load FAQs.' is shown. Loading ends either way. |
| FaqPage.FaqPageState.EditQuestion | frontend/src/pages/faq.jsx:11 | The question takes the typed text. |
| FaqPage.FaqPageState.Submit | frontend/src/pages/faq.jsx:28-52 | A refused question shows its message and sends nothing. Otherwise the trimmed text is sent. On success the input is cleared and the confirmation shown. On failure the server's error, else 'Failed to submit question.', is shown and the input kept. Submitting ends false. |
| FaqPage.FaqPageState.ToggleItem | frontend/src/pages/faq.jsx:84 | openIndex becomes Toggle of the clicked index. |
| Text.TrimIsInnerSlice | backend/src/controllers/faqController.js:15 | trim keeps one contiguous piece of the text and drops only whitespace around it. The piece starts and ends with a character that is not whitespace. |
| Text.TrimIdempotent | frontend/src/pages/faq.jsx:35 | Trimming twice is trimming once. |
| Text.Trim | backend/src/controllers/faqController.js:15 | `trim()` drops exactly the surrounding whitespace, and trimming twice is trimming once. Stated by TrimIsInnerSlice and TrimIdempotent. |
| Text.BlankIffAllSpace | frontend/src/pages/register.jsx:19 | `!s.trim()` holds exactly when every character is whitespace. |
| Text.Utf16Length | backend/src/controllers/faqController.js:21 | `length` counts UTF-16 code units: at least one and at most two per character. |
| Text.Utf16LengthOfBmp | frontend/src/pages/register.jsx:27 | Below U+10000, `length` is the number of characters. |
| Text.ReplaceNewlines | backend/src/controllers/contactController.js:66 | No newline is left after `replace(/\n/g, '<br>')`. |
| Text.ReplaceNewlinesLength | backend/src/controllers/contactController.js:49 | Every newline becomes the four characters `<br>`, and nothing else changes length. |
| Text.ReplaceNewlinesNoop | backend/src/controllers/contactController.js:49 | A message without newlines is rendered unchanged. |
| Text.KeepDigits | frontend/src/pages/forgotPassword.jsx:160 | `replace(/\D/g, '')` keeps only digits and never grows the text. |
| Text.KeepDigitsOfDigits | frontend/src/pages/forgotPassword.jsx:160 | A digit-only text is kept as it is. |
| Text.Take | frontend/src/pages/forgotPassword.jsx:160 | `slice(0, n)` is the prefix of length n, or the whole text when shorter. |
| Text.Split | backend/src/middleware/authMiddleware.js:5 | `split(' ')` gives one piece more than there are spaces, and no piece holds a space. |
| Text.JoinSplit | backend/src/middleware/authMiddleware.js:5 | Joining the pieces with the separator gives the text back. |
| Text.SplitAtFirst | backend/src/middleware/authMiddleware.js:5 | The first piece is the text before the first separator, and the rest is the split of what follows it. |
| Client.FirstTruthyPicks | frontend/src/services/auth.jsx:55 | A chain of alternatives yields its first truthy operand, as a chain of logical ors does. |
| Client.ServerErrorOr | frontend/src/pages/adminUsers.jsx:125 | The server's error when it is truthy, else the page's fallback. |
| JsValues.SpreadKeeps | frontend/src/pages/adminSecurity.jsx:18-21 | Spreading an object that lacks a key keeps that key's earlier value. |
| JsValues.SpreadOverrides | frontend/src/pages/adminDashboard.jsx:41-44 | Spreading an object that has a key takes its value for that key. |
| JsValues.Spread | frontend/src/pages/adminDashboard.jsx:41-44 | `{ ...a, ...b }` takes b's value for each key b has and keeps a's for the others. Stated by SpreadKeeps and SpreadOverrides. |
| JsValues.StringToNumber | backend/src/models/adminModel.js:56 | `Number(text)`: a blank text is 0, and the result is NaN exactly when the trimmed text is not a decimal integer with an optional sign. Whitespace around the text is ignored (StringToNumberIgnoresSpace), and printing an integer reads it back (NumberOfIntToString). |
| JsValues.StringToNumberIgnoresSpace | backend/src/models/adminModel.js:56 | The trimmed text reads as the same number as the text. |
| JsValues.NumberOfIntToString | backend/src/controllers/adminController.js:127 | An integer printed in decimal reads back as that integer. |
| JsValues.ToNumberOfId | backend/src/controllers/adminController.js:127-132 | An id sent as a number, as its decimal text or as that text with spaces around it reads as that number. A missing id is NaN, and null is 0. |
| JsValues.ToNumber | backend/src/controllers/adminController.js:127-132 | `Number(value)` of the delete guard and the audit limit. Stated by ToNumberOfId. |
| Sorting.SortDescSorted | backend/src/models/faqModel.js:13 | The ordering by a key descending is sorted and keeps every id exactly as often: it is a permutation. |
| Http.Destructure | backend/src/controllers/contactController.js:18 | Destructuring throws exactly on undefined and null. From an object it reads the property. |
| Store.Lookup | backend/src/models/taskModel.js:40 | `WHERE id = ?` finds the row whose id the key names, and None means no row matches. |
| AdminUsers.AdminUsersPage.constructor | frontend/src/pages/adminUsers.jsx:9-20 | The page starts with no users, no dialogs open and blank forms. |
| BrowserStorage.LocalStorage.SetItem | frontend/src/services/auth.jsx:19-20 | setItem stores the text under the key and leaves every other key as it was. |
| BrowserStorage.LocalStorage.RemoveItem | frontend/src/services/auth.jsx:38-39 | removeItem drops exactly that key. |
| AdminDashboard.WithoutIdLeavesNone | frontend/src/pages/adminDashboard.jsx:92 | After the filter no rule with the removed id is left. |
| AdminDashboard.WithoutIdCounts | frontend/src/pages/adminDashboard.jsx:92 | Every rule with another id is kept as often as it was, and rules with the removed id are gone. |
| AdminDashboard.WithoutIdKeeps | frontend/src/pages/adminSecurity.jsx:46 | Removing an id no rule has leaves the list as it was. |
| Sorting.SortDesc | backend/src/models/faqModel.js:13 | ORDER BY keeps every row as often as it was. |
| Sorting.InsertTies | backend/src/models/faqModel.js:13 | Inserting an id above every id of a list whose equal-key ids run higher first keeps that order. |
| Sorting.SortDescStable | backend/src/models/faqModel.js:13 | Sorting a list of decreasing ids by key keeps ids of equal key higher first: the sort is stable. |
| FaqModel.PublishedTiesHigherIdFirst | backend/src/models/faqModel.js:13 | Published questions with equal updated_at are listed higher id first. |
| FaqModel.PublishedOnce | backend/src/models/faqModel.js:11-16 | Each published FAQ shows up exactly once in the list. |
| DbSetup.RunCovers | backend/src/utils/dbSetup.js:28-93 | After a run without error, every step's column, table or setting is present. |
| DbSetup.RunErrorStops | backend/src/utils/dbSetup.js:28-93 | Running the same steps again on the state a failed run left gives the same failure. |
| DbSetup.Run | backend/src/utils/dbSetup.js:28-93 | A run without error leaves every step's column, table or setting present; a failed run fails again the same way. Stated by RunCovers and RunErrorStops. |
| DbSetup.RunKeepsSettings | backend/src/utils/dbSetup.js:18-26 | No sequence of steps changes a settings row that already exists. |

Where the code and its description disagree, the model follows the code, except where noted:

- checkAuthState reports a session only when both keys are present and the stored user also
  parses to a truthy value. A stored `"null"` is not a session (`AuthService.CheckAuthStateCases`).
- Except here: taskController uses a `pool` it never imports. The model gives its lookups the store they
  evidently mean.
- The admin page services call `forcePasswordReset`, `fetchFaqQuestions` and
  `updateFaqQuestion`, which `services/admin.jsx` does not export. Such a call rejects, which
  is the `Failed` or `Some` outcome of its parameter. The model covers both outcomes.

## Left out

- listUsers, revokeSessions, getAuditLogs, getSettings, listIpRules and deleteIpRule in adminController: each only forwards one model call to the response or to a 500. The model calls they forward are modelled where they compute something.
- getIpRules, deleteIpRule and getIpRulesForCheck in adminModel: single queries with no rule beyond the SQL text.
- getQuestionById in faqModel: a single keyed SELECT that no modelled handler uses.
- authController, userModel, bcrypt and jsonwebtoken: hashing, signing and verification are parameters, as in `AuthMiddleware` (`verify`).
- The MySQL engine: SQL parsing, collations (key comparison is exact), column types (for the reading of string keys see Store.Lookup below), the connection pool and concurrent requests. Only the table effects the query strings state are modelled.
- ensureColumn's SELECT from information_schema and its ALTER TABLE form one fault point: a failure of either leaves the database unchanged.
- The nodemailer transport: the outcome of each send is a parameter of `ContactController`.
- `Date` and the timestamps MySQL writes (`created_at`, `updated_at`): rows hold whatever timestamps they have, and no query of the model advances them.
- `Promise.all` loads: the joint outcome is one `Reply`, and which call rejected first is not modelled.
- React scheduling: each handler runs to completion. State set before an awaited call is not observable before the state set after it.
- The effects that re-run when the FAQ inbox filter changes: `AdminFaq.AdminFaqPage.LoadEffect` is one run with the filter of that moment.
- Axios request headers other than the Authorization header; `console` logging.
- JSON.stringify and JSON.parse: parameters, with parse giving nothing when it throws.
- Numbers: only integers are values. `NaN` is modelled where a handler tests for it (`Number(id)`, the audit limit), and the settings inputs take the integer `Number(value)` gave.
- Case mapping: `toLowerCase` and `toUpperCase` act on ASCII letters only.
- Spreading a value that is not an object: the pages never do this.
- Render-only parts of the pages: markup, icons as components, and inputs that only copy their text into state. Inputs that transform their text, such as the code sanitiser, are modelled.
- adminUsers handleRevokeSessions, handleDeleteUser and closeAdd: each is one service call, or one reset of a flag, with no rule of its own.
- The account lockout, reset codes, rate limiting, IP enforcement and session-version checks: no part of the code implements them. Only the columns and settings they would use are created by setup.
- Route wiring, Swagger documentation, the server entry points, the HTTP service wrappers in services/admin.jsx, boards.jsx, tasks.jsx and faq.jsx, the render-only pages and components, and the superseded `.js` copies of the client files.
- JsValues.StringToNumber: reads only an optional sign and decimal digits, after trimming. `Number()` also accepts a decimal point ('1.0', '1.'), an exponent ('1e2'), the prefixes 0x, 0b and 0o, and 'Infinity'; here each of those is NaN, because numbers are integers only and the same function gives the store's key comparison.
- AdminController.DeleteGuard: inherits StringToNumber's gap, so an id written as '1.0', '1e2' or '0x1' is refused with 400 here, where `Number()` would read it as 1, 100 or 1.
- AdminModel.AuditLimitClamp: inherits StringToNumber's gap, so a limit of '1e2' reads 50 entries here instead of 100, and 'Infinity' reads 50 instead of 200.
- AdminModel.GetAuditLogs: timestamps are not modelled, so entries that share a created_at come out newest-inserted first. `ORDER BY created_at DESC` promises no order among them.
- TaskList.ServedTasksThrow: holds only under the tasks table the model assumes, with the columns id, title, description, status, board_id and user_id that the task queries name. No file creates that table, so a deployed table may have a priority column, which the API documentation lists and the dashboard sends; its rows would then carry a priority and the grid would render.
- FaqModel.UpdateQuestion: writes any defined key. MySQL refuses a key that is not a column of faq_questions with ER_BAD_FIELD_ERROR, as AdminModel.FirstUnknown models for users; no handler calls updateQuestion, so that check is not modelled here.
- FaqModel.PublishedOrder: rows with equal updated_at are listed higher id first (FaqModel.PublishedTiesHigherIdFirst). `ORDER BY fq.updated_at DESC` promises no order among them.
- Store.Lookup: a key given as a string is read as JavaScript's Number() reads it, so text with trailing characters (`'5abc'`) names no row. mysql2 inlines the string into the query, and MySQL compares an integer column with a string by its leading numeric prefix, so there `'5abc'` names row 5. Store.KeyMatches has the same gap. This affects every route that passes `req.params.id` or a body id to SQL unconverted: GET, PUT and DELETE /api/boards/:id; PUT and DELETE /api/tasks/:id; the board_id of POST /api/tasks; PATCH /api/admin/users/:id, /api/admin/users/:id/role and /api/admin/users/:id/status; POST /api/admin/users/:id/revoke-sessions; PATCH /api/admin/faq-questions/:id; DELETE /api/admin/ip-rules/:id. In the model these answer as for a missing row (404 or no change) where the server would act on the prefix's row.
- JsValues.Keys: an object's keys are kept in insertion order. `Object.keys` lists integer-like keys first, in ascending order, so the key order of the updateSettings audit entry may differ for such keys.
- AuthService.CheckAuthStateCases: does not state the result when the user parses but the token is missing, beyond the fact that the session is then not authenticated.

## Findings

| source | as written | input that shows it | evidently intended | confidence | as-written member | corrected member |
|---|---|---|---|---|---|---|
| backend/src/controllers/adminController.js:136 | deleteUser calls `Admin.deleteUser`, which adminModel.js does not export, so the call throws a TypeError and every valid request is answered 500 "Failed to delete user" | an admin deleting another existing user, id 2 with caller id 1 | the user row is deleted and audited, and NOT_FOUND gives 404 | high, not executed | AdminController.DeleteUserAsWrittenNeverDeletes | AdminController.DeleteUserCases |
| backend/src/models/taskModel.js:21-23 | createTask inserts only title, description and status, so the new task's board_id and user_id are NULL and its creator gets 403 from updateTask and deleteTask. As written, addTask's board lookup (taskController.js:24) and the gates of updateTask and deleteTask (:50, :73) also use the undeclared `pool` and answer 500; the 403 shows once those lookups use the store, as the `pool` note above says | user 1 adds a task to their own board, then updates it | a new task records its board and its creator, who may edit and delete it | high, not executed | TaskController.CreatorLockedOut | TaskController.CreatorMayEdit |
