# Task manager core, modelled in Dafny

The system is a Russian-language task manager built on Next.js. It has:

- projects with members and an admin role;
- a kanban board per project, with tasks in four status columns (TODO, IN_PROGRESS, REVIEW, DONE) moved by drag and drop;
- a dashboard with analytics cards and a per-status task dialog;
- a profile page;
- sign-in and sign-up dialogs with an e-mail existence check;
- a landing page with a typewriter headline;
- a few API routes (profile, tarif, check-email) over a Prisma user table.

This project models the self-contained logic of those pieces. One Dafny module covers each source file:

- **Pure code** becomes functions and lemmas: projections, counters, labels, validators, request bodies and the API decision chains.
- **React state** becomes a `class`. Its fields are the component's `useState` variables, and each handler is a method with a `modifies` clause.
- **Outside inputs become explicit parameters.** This covers HTTP and database outcomes, the current time, the user table and the bcrypt results.

Shared modules:

- `Wrappers`: `Option`.
- `Text`: the JavaScript string built-ins used by the code.
  - `trim` over the JavaScript white-space set, with its lemmas (idempotence, "trim is an infix surrounded by white space", "blank iff all white space").
  - Case mapping for ASCII and Cyrillic letters.
  - `includes`, `split`/`join` and `slice`.
  - Decimal rendering of integers.
- `Json`: request-body values and JavaScript truthiness.
- `Tasks`: the kanban task record, with status and priority codes.
- `Users`: the user table the API routes read and write, their `Reply` type (`Ok(body)` or `Fail(status, error)`) and the session test.

The `Text` lemmas state properties of JavaScript's own operations rather than of this repository, so they have no row below.

The drag-and-drop rollback in `kanban-board.tsx` needs a word of warning. When the status write fails, the task is set back to the status that `handleDragEnd` read from the list just before its optimistic write (line 123). The rollback does this unconditionally. A later move of the same task, made while the failed write was still in flight, is therefore undone too. The model keeps this behaviour, and `KanbanBoard.RevertClobbersLaterMove` exhibits it.

## Model

| member | source | states |
|---|---|---|
| KanbanBoard.Columns | src/components/kanban/kanban-board.tsx:88-103 | The projection always has exactly the four status keys. |
| KanbanBoard.WithStatus | src/components/kanban/kanban-board.tsx:89-95 | Reference column: never longer than the list, and every task in it has that status (CountInColumn says it keeps exactly the list's tasks with that status, with multiplicity). |
| KanbanBoard.Grouped | src/components/kanban/kanban-board.tsx:89-95 | The `reduce` only creates a bucket when it pushes into it, so every bucket is non-empty, and a bucket holds only tasks of its own status. |
| KanbanBoard.WithStatusAppend | src/components/kanban/kanban-board.tsx:89-95 | Filtering a list with one more task appends that task to its own status's column only. |
| KanbanBoard.GroupedIsFilter | src/components/kanban/kanban-board.tsx:89-95 | The reduce creates a bucket for a status iff some task carries it, and the bucket is that status's tasks in input order. |
| KanbanBoard.ColumnsAreFilters | src/components/kanban/kanban-board.tsx:88-103 | Each of the four columns is exactly the tasks of that status in input order; an absent status gives the empty list. |
| KanbanBoard.CountInColumn | src/components/kanban/kanban-board.tsx:89-95 | A task occurs in a column as often as in the input if it has that status, otherwise not at all. |
| KanbanBoard.FiltersPartition | src/components/kanban/kanban-board.tsx:89-95 | The four status filters together hold exactly the input's tasks (as a multiset), whatever the statuses are. |
| KanbanBoard.ColumnsPartition | src/components/kanban/kanban-board.tsx:88-103 | The four columns together are a permutation of the input, and their lengths sum to the input length. |
| KanbanBoard.ColumnsExample | src/components/kanban/kanban-board.tsx:88-103 | A concrete three-task list is split into its columns, keeping order and filling empty columns. |
| KanbanBoard.FindById | src/components/kanban/kanban-board.tsx:107 | `find` returns nothing iff no task has the id, and otherwise a task of the list with that id. |
| KanbanBoard.MoveTask | src/components/kanban/kanban-board.tsx:130-136 | The optimistic map keeps length and order; tasks with the id get the new status and timestamp; all others stay the same. |
| KanbanBoard.RemoveById | src/components/kanban/kanban-board.tsx:183 | The filter never lengthens the list; RemoveByIdKeepsOthers, RemoveByIdSplits and RemoveByIdAppend say which tasks it keeps and in what order. |
| KanbanBoard.RevertTask | src/components/kanban/kanban-board.tsx:156-162 | The rollback map gives tasks with the id the captured status (keeping the optimistic timestamp) and changes no other task. |
| KanbanBoard.RemoveByIdKeepsOthers | src/components/kanban/kanban-board.tsx:183 | After deletion no task with the id is left, and every remaining task was in the list. |
| KanbanBoard.RemoveByIdSplits | src/components/kanban/kanban-board.tsx:183 | The kept tasks and the tasks with the id together are exactly the original multiset, so exactly the tasks with that id are removed. |
| KanbanBoard.RemoveAbsentId | src/components/kanban/kanban-board.tsx:183 | Removing an id no task has leaves the list unchanged. |
| KanbanBoard.RemoveByIdAppend | src/components/kanban/kanban-board.tsx:183 | Removing from a concatenation is removing from each part, so the kept tasks stay in their original relative order. |
| KanbanBoard.RemoveByIdAround | src/components/kanban/kanban-board.tsx:183 | Deleting a task leaves the tasks before it and after it in place around the gap. |
| KanbanBoard.MoveThenRevert | src/components/kanban/kanban-board.tsx:130-162 | When every task with the id still had the captured status, a move followed by its rollback restores the list except for the moved tasks' `updatedAt`. |
| KanbanBoard.RevertClobbersLaterMove | src/components/kanban/kanban-board.tsx:123-162 | Two moves of one task, A to B then B to C, where the first write fails after the second move: the rollback sets the task back to A, undoing the second move. |
| KanbanBoard.Board.constructor | src/components/kanban/kanban-board.tsx:74-78 | The board starts with the given tasks, no active task and both modals closed. |
| KanbanBoard.Board.DragStart | src/components/kanban/kanban-board.tsx:105-109 | The active task becomes the task with the dragged id, or none. |
| KanbanBoard.Board.DragEnd | src/components/kanban/kanban-board.tsx:111-138 | With no target, an unknown id or the same status: no write and `tasks` unchanged. Otherwise `tasks` becomes the optimistic move, and the pending write records the id, the status the drop read from the list before the write, and the target. `activeTask` is cleared on every path. |
| KanbanBoard.Board.PersistReply | src/components/kanban/kanban-board.tsx:141-162 | An ok reply changes nothing. A non-ok or thrown one rolls the task back to the captured status in whatever the current list is. |
| KanbanBoard.Board.DeleteTask | src/components/kanban/kanban-board.tsx:171-188 | A request is made iff the user confirms. The list loses exactly the tasks with the id after an ok reply, and is otherwise unchanged. |
| KanbanBoard.Board.OpenCreateModal | src/components/kanban/kanban-board.tsx:210 | The create modal opens. |
| KanbanBoard.Board.TaskCreated | src/components/kanban/kanban-board.tsx:195-198 | The new task is appended at the end and the create modal closes. |
| KanbanBoard.Board.EditTask | src/components/kanban/kanban-board.tsx:166-169 | The task becomes the one being edited and the edit modal opens. |
| KanbanBoard.Board.TaskDeleted | src/components/kanban/kanban-board.tsx:200-204 | The tasks with the id are filtered out and the edit modal closes. |
| KanbanBoard.Board.CloseEditModal | src/components/kanban/kanban-board.tsx:275-278 | The edit modal closes and no task is being edited. |
| AnalyticsCards.Tally | src/components/dashboard/analytics-cards.tsx:96-128 | Each task adds exactly one to `total`. |
| AnalyticsCards.CountStatus | src/components/dashboard/analytics-cards.tsx:100-113 | The number of tasks with a status never exceeds the number of tasks. |
| AnalyticsCards.CountOverdue | src/components/dashboard/analytics-cards.tsx:116-118 | The number of overdue tasks never exceeds the number of tasks. |
| AnalyticsCards.TallyStep | src/components/dashboard/analytics-cards.tsx:97-126 | Tallying one more task keeps the counters equal to the counts over the extended list. |
| AnalyticsCards.ComputeStats | src/components/dashboard/analytics-cards.tsx:96-128 | The nested loop leaves `total` at the number of tasks across all projects, each status counter at the number of tasks with that status, and `overdue` at the number of overdue tasks. |
| AnalyticsCards.StatusCountsSum | src/components/dashboard/analytics-cards.tsx:100-113 | The four status counts plus the tasks with any other status make up the whole list; the rest is zero iff every status is one of the four. |
| AnalyticsCards.StatsSumToTotal | src/components/dashboard/analytics-cards.tsx:96-128 | The four counters sum to at most `total`, and to exactly `total` iff every task has one of the four statuses. |
| AnalyticsCards.OverdueExcludesDone | src/components/dashboard/analytics-cards.tsx:116-118 | No DONE task is counted as overdue, so overdue plus done is at most the task count. |
| AnalyticsCards.AllTasksLength | src/components/dashboard/analytics-cards.tsx:97-99 | `total` counts every task of every project: the flattened list is as long as the per-project counts summed. |
| AnalyticsCards.ReplaceFirst | src/components/dashboard/analytics-cards.tsx:45-46 | `replace` with a one-character pattern keeps the length. |
| AnalyticsCards.ReplaceFirstSame | src/components/dashboard/analytics-cards.tsx:45-46 | Replacing '_' by '_' is the identity. |
| AnalyticsCards.ProjectRows | src/components/dashboard/analytics-cards.tsx:41-58 | One project never gives more rows than it has tasks. |
| AnalyticsCards.GetTasksByStatus | src/components/dashboard/analytics-cards.tsx:27-63 | The nested loop returns exactly the rows of the reference filter: the tasks with that status in project-then-task order, each tagged with its project. |
| AnalyticsCards.CountStatusAppend | src/components/dashboard/analytics-cards.tsx:40-59 | Status counts add up over concatenated task lists. |
| AnalyticsCards.ProjectRowsShape | src/components/dashboard/analytics-cards.tsx:41-58 | One project gives one row per task with the status. Each row carries that status, the project's id and name, and the title "Задача " followed by the first 8 characters of the id. |
| AnalyticsCards.RowsWithStatusShape | src/components/dashboard/analytics-cards.tsx:40-59 | There is one row per task with the status across all projects. Every row has that status and the title prefix, and is tagged with a real project's id and name. |
| AnalyticsCards.CardTitleStatus | src/components/dashboard/analytics-cards.tsx:177-199 | A card title never selects TODO: a selected status is IN_PROGRESS, REVIEW or DONE. |
| AnalyticsCards.CardTitleStatusSpec | src/components/dashboard/analytics-cards.tsx:177-199 | Only "В работе", "Проверка" and "Готово" (after trim) map to IN_PROGRESS, REVIEW and DONE; every other title maps to nothing. |
| AnalyticsCards.TransitionTargets | src/components/dashboard/analytics-cards.tsx:268-317 | At most two buttons. Each sends one of the four board statuses, never the selected one, and there are none without a selection. |
| AnalyticsCards.TransitionsAreAdjacent | src/components/dashboard/analytics-cards.tsx:268-317 | The offered moves are IN_PROGRESS to TODO or REVIEW, REVIEW to IN_PROGRESS or DONE, and DONE to REVIEW. Each targets an adjacent column, and nothing is offered for other selections. |
| AnalyticsCards.StatusChange | src/components/dashboard/analytics-cards.tsx:78-94 | The PUT carries the requested status, and the dashboard refreshes iff the reply is ok. |
| AnalyticsCards.Dashboard.constructor | src/components/dashboard/analytics-cards.tsx:23-24 | No status is selected and the dialog is closed. |
| AnalyticsCards.Dashboard.CardClick | src/components/dashboard/analytics-cards.tsx:65-76 | TODO changes nothing. Any other status is selected and the dialog opens. |
| AnalyticsCards.Dashboard.TitleClick | src/components/dashboard/analytics-cards.tsx:177-199 | A title that maps to no status changes nothing. A mapped title selects its status and opens the dialog. |
| AnalyticsCards.Dashboard.SetTaskModal | src/components/dashboard/analytics-cards.tsx:242 | The dialog's open flag takes the given value. |
| AnalyticsCards.Dashboard.DialogRows | src/components/dashboard/analytics-cards.tsx:259 | The dialog lists the rows of the selected status, or nothing when no status or the empty (falsy) status is selected. |
| TaskCard.TaskOverdueIff | src/components/kanban/task-card.tsx:84 | A task is overdue iff it has a deadline strictly before now and its status is not DONE. |
| TaskCard.IsOverdue | src/components/kanban/task-card.tsx:84 | Definition only (no contract): a deadline is present, lies strictly before `now`, and the status is not DONE. |
| TaskCard.NeverOverdue | src/components/kanban/task-card.tsx:84 | A DONE task, or one without a deadline, is never overdue. |
| TaskCard.OverdueMonotone | src/components/kanban/task-card.tsx:84 | An overdue task stays overdue as time passes. |
| TaskCard.ColorClassesAt | src/components/kanban/task-card.tsx:48-61 | The class string embeds the colour name. |
| TaskCard.PriorityColor | src/components/kanban/task-card.tsx:48-61 | Definition only (no contract): red, orange, yellow and green for URGENT, HIGH, MEDIUM and LOW, gray otherwise; its properties are in PriorityColorsDistinct. |
| TaskCard.PriorityColorsDistinct | src/components/kanban/task-card.tsx:48-61 | The four priorities get pairwise distinct colours, none of them the gray default. Every other value gets the default. |
| TaskCard.PriorityHasIcon | src/components/kanban/task-card.tsx:63-71 | The warning icon is only ever shown for one of the four known priorities. |
| TaskCard.PriorityLabel | src/components/kanban/task-card.tsx:110-112 | The label is one of the four texts, and it is "Низкий" exactly when the priority is none of URGENT, HIGH and MEDIUM. |
| TaskCard.PriorityBadge | src/components/kanban/task-card.tsx:63-112 | The warning icon appears only for URGENT and HIGH. The labels are Срочно, Высокий, Средний and (for the rest) Низкий. |
| TaskCard.FirstUpper | src/components/kanban/task-card.tsx:152 | `charAt(0).toUpperCase()` is empty for an empty string and otherwise the upper-cased first character. |
| TaskCard.AssigneeLabel | src/components/kanban/task-card.tsx:148-163 | Definition only (no contract): the name when present and non-empty, else the e-mail; "Не назначен" without an assignee. |
| TaskCard.AssigneeInitial | src/components/kanban/task-card.tsx:148-152 | The avatar text is at most one character. |
| TaskCard.InitialMatchesLabel | src/components/kanban/task-card.tsx:148-163 | There is an initial iff there is an assignee. The initial is the upper-cased first character of the label shown: the name when it is non-empty, otherwise the e-mail. |
| HeroSection.Step | src/components/sections/hero-section.tsx:18-42 | One tick keeps the word index in range. |
| HeroSection.StepSpec | src/components/sections/hero-section.tsx:21-37 | One tick does one of four things. While typing short of the word it adds the word's next character. At full length it starts deleting. While deleting it drops the last character. At empty text it moves to the next word modulo 3 and types again. Being a prefix of the current word is preserved. |
| HeroSection.ValidBounds | src/components/sections/hero-section.tsx:13-16 | In a valid state the index is in [0, 3) and the text is no longer than the current word. |
| HeroSection.Run | src/components/sections/hero-section.tsx:18-42 | Any number of ticks keeps the word index in range. |
| HeroSection.RunValid | src/components/sections/hero-section.tsx:18-42 | Any number of ticks from a valid state leaves a valid state. |
| HeroSection.RunAppend | src/components/sections/hero-section.tsx:18-42 | m + n ticks are m ticks followed by n ticks. |
| HeroSection.RunTyping | src/components/sections/hero-section.tsx:23-24 | Typing from any prefix reaches the whole word in as many ticks as characters remain. |
| HeroSection.RunDeleting | src/components/sections/hero-section.tsx:31-32 | Deleting from any prefix reaches the empty text in as many ticks as it has characters. |
| HeroSection.WordCycle | src/components/sections/hero-section.tsx:18-42 | From the empty text, 2·\|word\| + 2 ticks type the word, delete it and arrive at the next word. |
| HeroSection.Typewriter.constructor | src/components/sections/hero-section.tsx:14-16 | The state starts at the first word, empty, typing; it is valid. |
| HeroSection.Typewriter.Tick | src/components/sections/hero-section.tsx:18-42 | The three fields take the values of one `Step`, and validity is kept. |
| ProjectCard.JsRem | src/components/dashboard/project-card.tsx:23-28 | JavaScript's `%` agrees with the Euclidean remainder for non-negative counts and stays strictly within the divisor. |
| ProjectCard.MemberWord | src/components/dashboard/project-card.tsx:22-30 | The word is always one of the three forms "участник", "участника", "участников". |
| ProjectCard.MembersText | src/components/dashboard/project-card.tsx:22-30 | The text is the decimal count, then a space, then exactly the chosen word form. |
| ProjectCard.MemberWordIff | src/components/dashboard/project-card.tsx:23-28 | Each of "участник", "участника" and "участников" is chosen exactly under its mod-10/mod-100 condition. |
| ProjectCard.JsRemTens | src/components/dashboard/project-card.tsx:23-26 | The last digit is determined by the last two digits. |
| ProjectCard.WordDependsOnLastTwoDigits | src/components/dashboard/project-card.tsx:23-28 | Counts with the same remainder mod 100 get the same word. |
| ProjectCard.MatchesCldr | src/components/dashboard/project-card.tsx:22-30 | For every count the word agrees with the CLDR Russian integer plural categories one/few/many (Unicode UTS #35 Part 3, section 5). |
| ProjectCard.MemberWordExamples | src/components/dashboard/project-card.tsx:22-30 | 1, 21 and 101 take the first form; 2, 4 and 22 the second; 0, 5 through 20, and 111 the third. |
| ProjectCard.MembersTextExample | src/components/dashboard/project-card.tsx:22-30 | `getMembersText(1)` is "1 участник" and `getMembersText(12)` is "12 участников". |
| ProjectCard.ProjectStatusLabel | src/components/dashboard/project-card.tsx:116-118 | The label is Активный iff ACTIVE and Завершен iff COMPLETED; every other status reads Архивирован. |
| ProjectCard.DeleteButtonVisible | src/components/dashboard/project-card.tsx:121 | Definition only (no contract): the button is rendered iff the project's creator is the current user. |
| ProjectCard.Card.constructor | src/components/dashboard/project-card.tsx:57-58 | The confirmation is closed and no delete is running. |
| ProjectCard.Card.AskDelete | src/components/dashboard/project-card.tsx:121-130 | The trash button, shown only to the creator, opens the confirmation. |
| ProjectCard.Card.Delete | src/components/dashboard/project-card.tsx:60-81 | The list refreshes iff the reply is ok; the confirmation closes and the busy flag clears on every path. |
| ProfilePage.FormErrorsSpec | src/app/profile/page.tsx:92-114 | A name error iff the name is blank. The three password errors are each present iff a new password is given and its own rule fails: missing current password, shorter than 6, and mismatched confirmation. There are no other keys. |
| ProfilePage.FormErrors | src/app/profile/page.tsx:92-108 | The error map only ever uses the four field keys. |
| ProfilePage.PasswordRulesNeedNewPassword | src/app/profile/page.tsx:98-108 | Without a new password the form is valid iff the name is not blank. |
| ProfilePage.RequestBody | src/app/profile/page.tsx:122-126 | The two password keys are sent together or not at all, and a sent new password is never empty. |
| ProfilePage.ValidFormBody | src/app/profile/page.tsx:122-126 | The body has the trimmed name. It carries the current and new passwords only when a new password is given. |
| ProfilePage.Heads | src/app/profile/page.tsx:188-190 | `map(n => n[0]).join("")` gives at most one character per part. |
| ProfilePage.Initials | src/app/profile/page.tsx:185-192 | Definition only (no contract): "U" for a null or empty name, else the upper-cased heads of the space-split parts. Its meaning is stated by InitialsAreWordStarts. |
| ProfilePage.HeadsOfLaterParts | src/app/profile/page.tsx:185-192 | The first characters of the parts after the first space are the characters that follow a space. |
| ProfilePage.HeadsAreWordStarts | src/app/profile/page.tsx:185-192 | `split(" ").map(n => n[0]).join("")` yields exactly the word starts; empty parts add nothing. |
| ProfilePage.InitialsAreWordStarts | src/app/profile/page.tsx:185-192 | The initials of a non-empty name are its word starts, upper-cased. |
| ProfilePage.InitialsEmptyOnlyForSpaces | src/app/profile/page.tsx:185-192 | A name that does not start with a space has at least one initial. |
| ProfilePage.Page.constructor | src/app/profile/page.tsx:27-46 | Empty form, no errors, loading, not saving, no notification. |
| ProfilePage.Page.FetchProfile | src/app/profile/page.tsx:59-85 | An ok reply stores the profile and sets the name field to its name or "". A failure only shows the load notification. Loading ends on every path. |
| ProfilePage.Page.SaveProfile | src/app/profile/page.tsx:87-183 | The request is sent iff the collected error map is empty, else that map is shown. After an ok reply: the trimmed name in the profile, the password fields cleared, the name field kept. Otherwise: the server error shown. `isSaving` is false after every path. |
| ProfilePage.Page.ApplyReply | src/app/profile/page.tsx:129-179 | The answer's effect: the saved state for an ok reply, the error display otherwise. |
| ProfilePage.Page.ApplySuccess | src/app/profile/page.tsx:131-159 | Profile name becomes the trimmed name and the three password fields become "". |
| ProfilePage.Page.ApplyFailure | src/app/profile/page.tsx:160-179 | An error mentioning "пароль" goes to the current-password field, any other to a notification. A thrown request shows the generic notification. |
| ProfilePage.CollectErrors | src/app/profile/page.tsx:92-108 | Adding the error keys one by one produces exactly the rule-based error map. |
| ProfilePage.EmptyServerErrorIsGeneric | src/app/profile/page.tsx:160-170 | An error reply with an empty text shows the generic notification and no field error. |
| ProfileRoute.Get | src/app/api/profile/route.ts:8-44 | 401 iff there is no session user. 404 iff the user is not stored. Otherwise the user's id, name, e-mail, image and creation time. |
| ProfileRoute.ApplyUpdate | src/app/api/profile/route.ts:122-125 | The update writes the name, the image only when given and the password only when given; id, e-mail, creation time and tarif are untouched. |
| ProfileRoute.BuildUpdateData | src/app/api/profile/route.ts:105-119 | The update holds the trimmed name. It holds the image iff the key is present (a null included). It holds the hash of the new password iff one is given. |
| ProfileRoute.Checks | src/app/api/profile/route.ts:49-102 | Every early return of the chain is an error reply with status 400, 401, 404 or 500. |
| ProfileRoute.ChecksPassExactly | src/app/api/profile/route.ts:49-102 | The check chain lets a request through iff it reaches the update. |
| ProfileRoute.ChecksBeforeLookup | src/app/api/profile/route.ts:49-77 | A request without a session user gets 401 before the body is looked at. A missing or blank name gets 400 before the user lookup. An unknown user gets 404. |
| ProfileRoute.ChecksPasswordBlock | src/app/api/profile/route.ts:80-102 | With a new password the checks run in order: missing current password, wrong current password, then shorter than 6, each a 400. Without one, no password check happens. |
| ProfileRoute.Put | src/app/api/profile/route.ts:47-144 | A failure is the first failing check and writes nothing. Success writes the built update to the session user only and echoes the new row. |
| ProfileRoute.CurrentPasswordIgnoredWithoutNewPassword | src/app/api/profile/route.ts:80-119 | Without a new password the current password affects neither acceptance nor the update, and no hash is written. |
| ProfileRoute.UpdateIsLocal | src/app/api/profile/route.ts:122-125 | The write changes only the session user's row and only its name, image and password. |
| ProfileRoute.PutThenGet | src/app/api/profile/route.ts:105-137 | After a successful PUT, GET succeeds and shows the trimmed new name. |
| ProfileSave.ValidFormIsAccepted | src/app/profile/page.tsx:122-126 | A form the page lets through, with a correct current password, passes the route's checks. |
| ProfileSave.PasswordErrorsGoToField | src/app/api/profile/route.ts:82-101 | All three of the route's password errors contain "пароль", so the page shows them at the password field. |
| ProfileSave.MentionsPassword | src/app/profile/page.tsx:161 | A text containing "пароль" at some position passes the page's `includes` test. |
| ProfileSave.WrongPasswordShownAtField | src/app/profile/page.tsx:161-170 | The route's wrong-password error ends up as the current-password field error, with no notification. |
| TarifRoute.AcceptedIff | src/app/api/user/tarif/route.ts:74-79 | A tarif is accepted iff it is the string "free", "prof" or "corp". |
| TarifRoute.Accepted | src/app/api/user/tarif/route.ts:74-79 | Definition only (no contract): a truthy value equal to one of the listed plan strings; AcceptedIff states it outright. |
| TarifRoute.Get | src/app/api/user/tarif/route.ts:6-54 | 401 iff there is no session user. 404 iff the user is not stored. Otherwise the stored tarif. Failures are 401, 404 or 500. |
| TarifRoute.Put | src/app/api/user/tarif/route.ts:56-106 | 401 without a session user. 400 for a missing or unlisted tarif. 500 for an unreadable body, an unknown user or a failed write. Any failure leaves the store unchanged. Success writes the tarif and echoes the stored value. |
| TarifRoute.PutTouchesOnlyTarif | src/app/api/user/tarif/route.ts:85-89 | A successful PUT changes only the session user's tarif field. |
| TarifRoute.PutThenGet | src/app/api/user/tarif/route.ts:43-95 | GET after a successful PUT returns the tarif written. |
| TarifRoute.PutIdempotent | src/app/api/user/tarif/route.ts:85-95 | Repeating a successful PUT gives the same reply and the same store. |
| CheckEmailRoute.Post | src/app/api/auth/check-email/route.ts:4-31 | 400 for a present but empty or non-string e-mail. Ok iff a non-empty string is given and the lookup works. The registered flag holds iff a user has the lower-cased, trimmed e-mail, and the message matches the flag. |
| CheckEmailRoute.Normalize | src/app/api/auth/check-email/route.ts:17 | The lookup key is no longer than the address and is already trimmed. |
| CheckEmailRoute.Registered | src/app/api/auth/check-email/route.ts:16-22 | Definition only (no contract): some stored user has exactly this address. |
| CheckEmailRoute.NormalizeIgnoresCaseAndPadding | src/app/api/auth/check-email/route.ts:17 | Addresses that differ in letter case or surrounding white space have the same lookup key. |
| CheckEmailRoute.SameAnswer | src/app/api/auth/check-email/route.ts:16-24 | Such addresses also get the same answer. |
| SignInModal.PatternIff | src/components/auth/signin-modal.tsx:55 | The pattern matches exactly the strings with no white space and exactly one '@' with something before it. The part after the '@' must contain a '.' that is neither its first nor its last character. |
| SignInModal.EmailPattern | src/components/auth/signin-modal.tsx:55 | Definition only (no contract): the anchored pattern matches for some position of its '@' and '.', with the three runs each non-empty and free of white space and '@'. |
| SignInModal.FormatOk | src/components/auth/signin-modal.tsx:91 | Definition only (no contract): the submit guard tests the pattern on the trimmed e-mail. |
| SignInModal.PatternExamples | src/components/auth/signin-modal.tsx:55 | "a@b.c" and "a.b@c.d" match. "a@b", "@b.c", "a@.b", "a@b." and "a b@c.d" do not. |
| SignInModal.Dialog.constructor | src/components/auth/signin-modal.tsx:24-30 | Empty fields, not loading, no messages, no pending check. |
| SignInModal.Dialog.Close | src/components/auth/signin-modal.tsx:33-44 | The pending check is cancelled and the error and e-mail messages are cleared. |
| SignInModal.Dialog.ValidateEmailFormat | src/components/auth/signin-modal.tsx:47-62 | A blank value clears the hint. Otherwise the format hint is shown iff the trimmed value fails the pattern. |
| SignInModal.Dialog.EmailChanged | src/components/auth/signin-modal.tsx:64-82 | The field takes the value, the error clears at once, and the check is rescheduled for that value. |
| SignInModal.Dialog.CheckFired | src/components/auth/signin-modal.tsx:74-81 | The scheduled check validates the value it was scheduled for. |
| SignInModal.Dialog.Submit | src/components/auth/signin-modal.tsx:84-115 | A trimmed e-mail failing the pattern shows "Введите корректный email" and sends nothing. Otherwise the untrimmed e-mail is sent. A result with an error shows "Неверный email или пароль", a thrown call shows the generic error, and success closes the dialog. Loading ends on every path. |
| SignInModal.Dialog.ApplyOutcome | src/components/auth/signin-modal.tsx:98-114 | The dialog closes iff sign-in resolved without error; otherwise the matching error shows. |
| SignInModal.TrimOfTrimmed | src/components/auth/signin-modal.tsx:55 | A string with no white space at either end is its own trim. |
| SignInModal.PaddedEmailPassesGuard | src/components/auth/signin-modal.tsx:91-100 | An address typed with a leading space passes the trimmed check but is sent untrimmed, and the pattern rejects the string sent. |
| SignUpModal.MayRegisterCases | src/components/auth/signup-modal.tsx:104-124 | Registration is refused when the e-mail is known to exist and allowed when it is known to be free. While unknown it is allowed only for a blank e-mail. |
| SignUpModal.MayRegister | src/components/auth/signup-modal.tsx:104-114 | Definition only (no contract): `emailExists` is false, or it is null and the e-mail is blank. |
| SignUpModal.Dialog.constructor | src/components/auth/signup-modal.tsx:22-30 | Empty fields, no messages, existence unknown, no check running or pending. |
| SignUpModal.Dialog.Close | src/components/auth/signup-modal.tsx:33-45 | Existence reset to unknown. No check running or pending. Error and success texts cleared. |
| SignUpModal.Dialog.EmailChanged | src/components/auth/signup-modal.tsx:80-95 | The field takes the value, existence becomes unknown, the error clears, and a check is scheduled. |
| SignUpModal.Dialog.CheckFired | src/components/auth/signup-modal.tsx:90-94 | The debounced check is requested iff the scheduled value is not blank. |
| SignUpModal.Dialog.CheckEmailExists | src/components/auth/signup-modal.tsx:47-78 | A blank e-mail changes nothing. An ok answer records whether the address is taken, and sets the "already registered" error or clears the error. A refused or thrown check keeps the previous existence and shows the reply's text or the default. |
| SignUpModal.Dialog.Submit | src/components/auth/signup-modal.tsx:97-147 | The three-state guard decides whether the request is sent, with its own error for "taken" and "still checking". After an ok registration the form clears and the dialog switches to sign-in. A refused or thrown one shows its error. Loading ends on every path. |
| ProjectDetailsModal.IsAdminIff | src/components/dashboard/project-details-modal.tsx:136-138 | The user is an admin iff some member entry has the user's id and the role "admin". |
| ProjectDetailsModal.IsAdmin | src/components/dashboard/project-details-modal.tsx:136-138 | Definition only (no contract): the recursive `some` over the member list; IsAdminIff gives its meaning. |
| ProjectDetailsModal.IsAdminAppend | src/components/dashboard/project-details-modal.tsx:101-138 | Appending a member can make only that member's user an admin; everyone else keeps their standing. |
| ProjectDetailsModal.Dialog.constructor | src/components/dashboard/project-details-modal.tsx:56-61 | No members, the project's status, the viewer's user id, an empty invite field, no error, loading. |
| ProjectDetailsModal.Dialog.Open | src/components/dashboard/project-details-modal.tsx:63-81 | The shown status is reset to the project's, and the members are replaced by an ok reply's list. |
| ProjectDetailsModal.Dialog.Invite | src/components/dashboard/project-details-modal.tsx:83-115 | Callable only by an admin of the project (the form is rendered under `isAdmin`, lines 136-138 and 172). A blank address sends nothing and changes nothing; otherwise the trimmed address is sent. Success appends the returned member at the end and clears the field. A failure keeps the members and shows the server text or the default. |
| ProjectDetailsModal.Dialog.StatusChange | src/components/dashboard/project-details-modal.tsx:117-134 | Callable only by an admin of the project (the select is rendered under `isAdmin`, line 256). The shown status becomes the requested one only after an ok reply. |
| EditTaskModal.BodyOf | src/components/kanban/edit-task-modal.tsx:118-125 | The body has the trimmed title, the trimmed description or null when blank, the assignee or null when empty, and the form's status, priority and deadline. |
| EditTaskModal.FieldsOf | src/components/kanban/edit-task-modal.tsx:92-100 | Definition only (no contract): the six fields copied from the task, with a null description or assignee read as "". |
| EditTaskModal.UneditedSaveRoundTrip | src/components/kanban/edit-task-modal.tsx:92-125 | Opening and saving unedited sends back the task's own status, priority, deadline and assignee (a null assignee stays null), a null description stays null, and the trimmed title. |
| EditTaskModal.UneditedSaveOfCleanTask | src/components/kanban/edit-task-modal.tsx:92-125 | A task whose texts are already trimmed comes back exactly. |
| EditTaskModal.SelectValue | src/components/kanban/edit-task-modal.tsx:236 | The select always shows a non-empty value: an empty assignee shows as "none". |
| EditTaskModal.OnSelect | src/components/kanban/edit-task-modal.tsx:236 | The stored assignee is never the placeholder "none". |
| EditTaskModal.SelectRoundTrip | src/components/kanban/edit-task-modal.tsx:236 | The select maps "" to "none" and "none" back to "", and round-trips on every other id. |
| EditTaskModal.Dialog.constructor | src/components/kanban/edit-task-modal.tsx:81-89 | Fields at their initial values and no request or confirmation active. |
| EditTaskModal.Dialog.Populate | src/components/kanban/edit-task-modal.tsx:92-101 | With a task and the dialog open, the six fields are copied from the task; otherwise nothing changes. |
| EditTaskModal.Dialog.SelectAssignee | src/components/kanban/edit-task-modal.tsx:236 | The assignee field takes the selected value, with "none" read as "". |
| EditTaskModal.Dialog.Submit | src/components/kanban/edit-task-modal.tsx:103-140 | No task or a blank title sends nothing. Otherwise the form's body is sent and the dialog closes only after an ok reply. `isSubmitting` is false after every sending path. |
| EditTaskModal.Dialog.DeleteDialogChange | src/components/kanban/edit-task-modal.tsx:302 | The confirmation's open flag takes the value its `onOpenChange` reports. |
| EditTaskModal.Dialog.Delete | src/components/kanban/edit-task-modal.tsx:142-162 | Without a task nothing happens. An ok reply reports the task's id and closes the dialog; a failure reports nothing. The confirmation closes every time. |
| CreateTaskModal.BodyOf | src/components/kanban/create-task-modal.tsx:91-97 | The body has the trimmed title and no status; the description is left out when blank and the assignee when empty. Priority and deadline come from the form. |
| CreateTaskModal.TitleOnlyBody | src/components/kanban/create-task-modal.tsx:91-97 | A form with only a title creates a MEDIUM task with nothing else set. |
| CreateTaskModal.SubmitDisabled | src/components/kanban/create-task-modal.tsx:218 | Definition only (no contract): the button is disabled while submitting or while the title is blank. |
| CreateTaskModal.Dialog.constructor | src/components/kanban/create-task-modal.tsx:69-74 | The fields start at "", "", MEDIUM, "" and no deadline. |
| CreateTaskModal.Dialog.Submit | src/components/kanban/create-task-modal.tsx:76-118 | A blank title sends nothing. Otherwise the body is sent. Success hands over the created task and resets every field; failure keeps the form. `isSubmitting` is false afterwards. |
| CreateTaskModal.DisabledMatchesGuard | src/components/kanban/create-task-modal.tsx:218 | When idle, the submit button is disabled exactly for the titles the handler refuses. |
| CreateProjectModal.BodyOf | src/components/dashboard/create-project-modal.tsx:49-52 | The body has the trimmed name, and the trimmed description or null when it is blank. |
| CreateProjectModal.Formatted | src/components/dashboard/create-project-modal.tsx:62-71 | The emitted project copies id, name, description and creation time, with one member and no tasks. |
| CreateProjectModal.Dialog.constructor | src/components/dashboard/create-project-modal.tsx:28-31 | Empty fields, not loading, no error. |
| CreateProjectModal.Dialog.Submit | src/components/dashboard/create-project-modal.tsx:33-82 | A blank name shows "Название проекта обязательно" and sends nothing. Otherwise the body is sent. Success emits the formatted project and clears both fields; failure keeps them and sets the error. Loading ends on every path. |

## Left out

- **Outside inputs are parameters.** Network and database calls (`fetch`, Prisma), NextAuth sessions and bcrypt are outside the model. Their outcomes are parameters:
  - reply values;
  - a `dbUp` flag that stands for any thrown database error (a 500);
  - a map from id to user row;
  - uninterpreted `Compare` and `Hash` functions.
- **The clock is a parameter.** `new Date()` is an integer `now`.
- **Timers and async interleaving.** The sign-up 500 ms debounce and the sign-in 1.5 s delay become a pending-check field and a "fired" method. Typewriter tick durations are dropped.
- HeroSection.Step: the 2-second pause before deleting is collapsed. The tick at full length sets the deleting flag directly, instead of through a second timer, and a tick that fires during the pause is not modelled.
- **Rendering is left out.** JSX, styling classes, dnd-kit sensors and overlay, framer-motion animation, `confirm()` (a `confirmed` parameter), the `alert()` messages (the server's error text or a generic one when deleting a project fails) and `window.location.reload()` (a `refresh` result).
- **UI-only files are not part of this model:** static pages, the header, the notification, contact and trial modals, and the project grid.
- EditTaskModal.Dialog.DeleteDialogChange: no control in the dialog opens the delete confirmation. Only the confirmation's own `onOpenChange` writes the flag, so `handleDelete` is reachable only once something else has opened it.
- The field `onChange` handlers of the forms are plain assignments. The model writes the class fields directly.
- Text.Lower, Text.Upper: case mapping covers ASCII and Cyrillic letters only, not the whole of Unicode.
- JavaScript strings are UTF-16. The model treats them as sequences of characters, so `.length < 6`, `charAt(0)`, `n[0]` and `slice(0, 8)` count characters, not UTF-16 code units.
- JSON numbers are integers; floating point is not modelled.
- ProfileRoute.Put: the echoed row leaves out the `updatedAt` column, which Prisma maintains.
- ProfileRoute.BuildUpdateData: an `image` that is neither a string nor null would be refused by Prisma at the update. The route then answers 500, which the model covers by requiring a storable image at this step and checking it in the chain.
- ProfilePage.Page.ApplyFailure: an `error` field that is not a string gets the generic notification. This matches the code for a missing or scalar field, where `includes` throws. An array-valued field (whose `includes` does not throw) is not modelled.
- SignUpModal.Dialog.CheckEmailExists: a check reply is applied whatever the e-mail field holds by then. The model does not tie a late reply to the value it was sent for.
- The comparison of status codes in `getTasksByStatus` is modelled on the strings the API returns. IN_PROGRESS and the other codes are compared as plain strings.
