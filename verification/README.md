# Per-user todo list: a Dafny model

This project models the core of a small todo application. The application has two front ends: a web UI and a tool server for AI agents that speaks the Model Context Protocol (MCP). Both front ends work on one table of todos, and every todo belongs to a username. The model covers:

- **Schema** (`schema.dfy`): the `todos` row, its column defaults, the primary-key invariant (ids unique across all users), and the `all` / `active` / `completed` status filter.
- **Db** (`db.dfy`): the data-access layer. `TodoTable` is a class holding the rows. Its methods add a row, partially update a row, toggle `completed` and delete a row; each of the last three touches only the row that `(id, username)` designates. The list query `Select` returns one user's rows, filtered by status and ordered newest first. The generated UUID and the clock reading are parameters (a fresh id and a `nat` timestamp). "Not found" is `None`.
- **McpServer** (`mcp_server.dfy`): the tool handlers. Each one runs one table operation and turns the outcome into a result with one text block. A "not found" outcome becomes an error result with a fixed message. The module also covers dispatch of a typed tool call, the read callback of the UI resource, and the registry that `createMcpServer` fills. `JSON.stringify` is a function parameter.
- **TodoListState** (`todo_list.dfy`): the web list's client state. It covers the optimistic reducer, the status tabs, the open-item count and the updaters that reconcile the list with the server's answers.
- **TodoItemEdit**, **AddTodoForm**, **HomeRoute** (`todo_item.dfy`, `add_todo.dfy`, `home_route.dfy`): the three input components, as classes over their React state. Among the modelled files they are the only places where a blank title or username is refused; the embedded UI in `mcp-ui/src/App.tsx` refuses a blank title as well.
- **Text** (`text.dfy`): JavaScript's `trim`, using the exact set of white-space and line-terminator code points, and `toLowerCase`.
- **Router** (`router.dfy`): the worker's `fetch`, which sends `/mcp` and `/mcp/...` to the MCP handler and every other path to the web application.

## Model

| member | source | states |
|---|---|---|
| Schema.WithDefaults | src/db/schema.ts:3-14 | the stored row keeps every supplied column; an omitted description becomes "", an omitted `completed` becomes false, an omitted createdAt takes its own clock reading and an omitted updatedAt takes a separate one |
| Schema.MinimalInsert | src/db/schema.ts:6-14 | an insert of only id, title and username gives an open todo with an empty description; createdAt is the first default reading and updatedAt the second, so the two need not be equal |
| Schema.SuppliedTimestampsKept | src/db/schema.ts:9-14 | supplied timestamps override both default functions, whatever the clock reads at insert time |
| Schema.MatchesStatus | src/lib/db.ts:10-12 | a todo passes the filter exactly when the status is "all" or its completed flag equals (status is "completed") |
| Schema.StatusesPartition | src/lib/db.ts:10-12 | "all" admits every todo; exactly one of "active" and "completed" admits any given todo |
| Db.Where | src/lib/db.ts:10-17 | each row appears exactly as often as it is stored when it is owned by the user and passes the status, and otherwise not at all |
| Db.InsertNewestFirst | src/lib/db.ts:18 | inserting into a newest-first list keeps it newest first and adds exactly that one row |
| Db.SortNewestFirst | src/lib/db.ts:18 | the result is ordered by createdAt descending and is a permutation of the input |
| Db.Select | src/lib/db.ts:5-19 | getTodos returns exactly the user's rows that pass the status filter (an omitted status acts as "all"), newest first, and nothing owned by anyone else |
| Db.StatusPartition | src/lib/db.ts:10-12 | for one user, "active" and "completed" together give "all" as a multiset and share no row; an omitted status lists the same as "all" |
| Db.FindOwned | src/lib/db.ts:61 | returns the first position whose row matches both id and username, or None exactly when no row matches both |
| Db.FindOwnedUnique | src/db/schema.ts:4 | with unique ids, the row `(id, username)` designates is the one found |
| Db.Patched | src/lib/db.ts:51 | sets the title and description only when supplied, sets updatedAt to now, and keeps the id, owner, completion and createdAt |
| Db.Toggled | src/lib/db.ts:68-71 | negates completed, sets updatedAt, and changes nothing else |
| Db.ToggledTwice | src/lib/db.ts:66-74 | two toggles give back the original row except for updatedAt |
| Db.ReplaceOwnedKeepsOthers | src/lib/db.ts:52 | rewriting one row of the user leaves every other user's rows as they were |
| Db.RemoveOwnedKeepsOthers | src/lib/db.ts:80 | removing one row of the user leaves every other user's rows, keeps ids unique, and leaves no row with that id |
| Db.TodoTable.constructor | src/db/schema.ts:3 | an empty table satisfies the unique-id invariant |
| Db.TodoTable.GetTodos | src/lib/db.ts:5-19 | reads the table without changing it and returns Select of the current rows |
| Db.TodoTable.AddTodo | src/lib/db.ts:21-41 | appends exactly one row (the fresh id, the title and username, description defaulting to "", not completed, both timestamps now), returns it, and keeps ids unique |
| Db.TodoTable.UpdateTodo | src/lib/db.ts:43-55 | with no row matching (id, username), returns None and leaves the table unchanged; otherwise patches only that row and returns the new row; other users' rows are untouched |
| Db.TodoTable.ToggleTodo | src/lib/db.ts:57-75 | with no row matching (id, username), returns None and leaves the table unchanged; otherwise flips completed on that row, refreshes updatedAt and returns the new row; other users' rows are untouched |
| Db.TodoTable.DeleteTodo | src/lib/db.ts:77-83 | with no match, returns None and leaves the table unchanged; otherwise removes that row, returns it as it was before, and no row with that id remains; other users' rows are untouched |
| Db.ToggleTwice | src/lib/db.ts:57-75 | two toggles in a row put the todo back to its original completion state and leave all other rows as they were |
| McpServer.ListTodosResult | mcp/server.ts:57-64 | exactly one text block holding the serialized list and no error flag, also for an empty list |
| McpServer.AddTodoResult | mcp/server.ts:83-90 | never an error; one text block naming the title, followed by the serialized todo |
| McpServer.UpdateTodoResult | mcp/server.ts:113-126 | an error exactly when the data layer returned nothing, and then the single "not found" block; otherwise the confirmation followed by the serialized todo |
| McpServer.CompleteTodoResult | mcp/server.ts:144-158 | an error exactly when nothing was returned; otherwise names the title and "完了" or "未完了" according to the new state, followed by the serialized todo |
| McpServer.DeleteTodoResult | mcp/server.ts:176-189 | an error exactly when nothing was returned; otherwise one block naming the deleted title |
| McpServer.CompleteTextNamesState | mcp/server.ts:150-155 | for the same title and any serializer, the completed and the open confirmations agree up to the state word and differ at its first character, before any payload |
| McpServer.StateWord | mcp/server.ts:150 | both state words end in "完了"; the word is exactly that two-character string when the todo is completed, and longer ("未完了") when it is open |
| McpServer.NotFound | mcp/server.ts:113-118 | one text block with the fixed not-found message, flagged as an error; the same result for all three by-id tools (also lines 144-149 and 176-181) |
| McpServer.DeleteTextNamesOnlyTitle | mcp/server.ts:186 | the delete confirmation depends on the title alone and carries no JSON payload |
| McpServer.UpdateArguments | mcp/server.ts:109-111 | forwards title and description exactly when each is present |
| McpServer.EmptyUpdateTouchesOnlyUpdatedAt | mcp/server.ts:109-112 | an update with neither field changes only updatedAt |
| McpServer.ListTodos | mcp/server.ts:55-65 | lists with "all" when status is omitted and returns the list result over the current table |
| McpServer.AddTodo | mcp/server.ts:81-91 | inserts the new todo and returns its confirmation; other users' rows are untouched |
| McpServer.UpdateTodo | mcp/server.ts:108-127 | applies the present fields to the designated row; an error result with the table unchanged exactly when no row matches |
| McpServer.CompleteTodo | mcp/server.ts:142-159 | toggles the designated row; an error result with the table unchanged exactly when no row matches |
| McpServer.DeleteTodo | mcp/server.ts:174-190 | deletes the designated row and names it; an error result with the table unchanged exactly when no row matches |
| McpServer.CallTool | mcp/server.ts:40-191 | every call yields one text block; a list call leaves the table unchanged and returns the list result of Select with "all" for an omitted status; an add call appends exactly the new todo and returns its confirmation; an update, complete or delete call whose (id, username) matches changes exactly that row as its handler does and returns its handler's result; a call is an error only for a by-id tool whose (id, username) matches nothing, and then it is the not-found result with the table unchanged; other users' rows are never touched |
| McpServer.ReadUiResource | mcp/server.ts:28-36 | one entry whose uri is ui://todo/app.html, with the fixed mime type and the bundle text verbatim |
| McpServer.ToolDeclarations | mcp/server.ts:40-172 | five tools with distinct names, each declaring the UI resource uri in its metadata |
| McpServer.EveryCallIsDeclared | mcp/server.ts:40-172 | every typed tool call is addressed to one of the declared tools |
| McpServer.McpRegistry.constructor | mcp/server.ts:17-20 | a new server has no resources and no tools |
| McpServer.McpRegistry.RegisterAppResource | mcp/server.ts:23-37 | appends one resource and leaves the tools as they were |
| McpServer.McpRegistry.RegisterAppTool | mcp/server.ts:40-66 | appends one tool and leaves the resources as they were |
| McpServer.CreateMcpServer | mcp/server.ts:14-194 | registers the UI resource and then the five tools, each tied to that resource's uri |
| TodoListState.OptimisticTodo | src/components/TodoList.tsx:27-35 | the placeholder has the given id and title, the current username, an empty description and is not completed |
| TodoListState.ToggleById | src/components/TodoList.tsx:39-44 | same length and order; completed is negated on exactly the items with the id |
| TodoListState.RetitleById | src/components/TodoList.tsx:45-51 | same length and order; only the title of the items with the id changes |
| TodoListState.RemoveById | src/components/TodoList.tsx:52-55 | drops every item with the id, keeps every other item as often as before, and keeps their relative order |
| TodoListState.Reduce | src/components/TodoList.tsx:22-59 | add prepends one placeholder and keeps the rest; toggle, update and delete act by id as above; an unknown action type returns the state unchanged |
| TodoListState.ToggleTwiceIsIdentity | src/components/TodoList.tsx:39-44 | applying the same toggle action twice is the identity |
| TodoListState.DeleteRemovesOnlyThatId | src/components/TodoList.tsx:52-55 | an item survives a delete exactly when it was there and has another id |
| TodoListState.Visible | src/components/TodoList.tsx:62-66 | the tab shows exactly the items whose status matches the filter, each as often as in the list, in list order |
| TodoListState.AllTabShowsEverything | src/components/TodoList.tsx:65 | the "all" tab is the whole list in order |
| TodoListState.TabsPartition | src/components/TodoList.tsx:62-66 | the "active" and "completed" tabs split the list, sharing nothing and leaving nothing out |
| TodoListState.ActiveCount | src/components/TodoList.tsx:68 | the number of open items, never more than the list length (its relation to the tabs is ActiveCountIsActiveTab) |
| TodoListState.ActiveCountIsActiveTab | src/components/TodoList.tsx:68 | the open count equals the length of the "active" tab, and with the "completed" tab it adds up to the list length |
| TodoListState.AfterAdd | src/components/TodoList.tsx:75 | the server's todo goes in front of the previous list, which is otherwise unchanged |
| TodoListState.ReplaceById | src/components/TodoList.tsx:84 | same length; the server's todo replaces exactly the items with the id |
| TodoListState.AfterSave | src/components/TodoList.tsx:83-85 | the list changes only when the server returned a todo, and then by replacing the items with the id |
| TodoListState.ToggleReconcileAgrees | src/components/TodoList.tsx:81-85 | with unique ids, the reconciled list after the server's toggle equals the optimistic list with only that row's updatedAt replaced by the server's clock reading |
| TodoListState.UpdateReconcileAgrees | src/components/TodoList.tsx:91-97 | with unique ids, the reconciled list after the server's retitle equals the optimistic list with only that row's updatedAt replaced by the server's clock reading |
| TodoItemEdit.SaveOutcome | src/components/TodoItem.tsx:19-23 | onUpdate is called exactly when the trimmed draft is non-blank and differs from the title, with the todo's id and the trimmed, non-empty draft |
| TodoItemEdit.PaddedSameTitleSendsNothing | src/components/TodoItem.tsx:20-21 | saving the current title again, with white space around it, sends no update |
| TodoItemEdit.TodoItemEditor.constructor | src/components/TodoItem.tsx:16-17 | editing starts off and the draft starts as the todo's title |
| TodoItemEdit.TodoItemEditor.ReceiveTodo | src/components/TodoItem.tsx:15-17 | a new todo prop leaves the draft and the edit mode as they were |
| TodoItemEdit.TodoItemEditor.StartEditing | src/components/TodoItem.tsx:69 | the pencil button turns edit mode on |
| TodoItemEdit.TodoItemEditor.ChangeTitle | src/components/TodoItem.tsx:37 | typing replaces the draft |
| TodoItemEdit.TodoItemEditor.Save | src/components/TodoItem.tsx:19-25 | always leaves edit mode and keeps the draft; the update sent is SaveOutcome of the draft |
| TodoItemEdit.TodoItemEditor.KeyDown | src/components/TodoItem.tsx:38-41 | Enter saves; Escape leaves edit mode without an update; any other key changes nothing |
| TodoItemEdit.TodoItemEditor.Cancel | src/components/TodoItem.tsx:51-54 | resets the draft to the title and leaves edit mode without an update |
| AddTodoForm.SubmittedTitle | src/components/AddTodo.tsx:11-13 | nothing for a blank input; otherwise the trimmed input, which is non-empty and has no surrounding white space |
| AddTodoForm.AddTodo.constructor | src/components/AddTodo.tsx:7 | the input starts empty |
| AddTodoForm.AddTodo.Change | src/components/AddTodo.tsx:20 | typing replaces the input |
| AddTodoForm.AddTodo.SubmitDisabled | src/components/AddTodo.tsx:25 | the button is disabled exactly when a submit would add nothing |
| AddTodoForm.AddTodo.Submit | src/components/AddTodo.tsx:9-15 | a blank input adds nothing and stays; otherwise onAdd gets the trimmed title once and the input is reset to "" |
| HomeRoute.NavigationTarget | src/routes/index.tsx:22-24 | no navigation for a blank input; otherwise the target is lowercase(trim(input)), non-empty, with no surrounding white space, and already lower case |
| HomeRoute.Home.constructor | src/routes/index.tsx:17 | the input starts empty |
| HomeRoute.Home.Change | src/routes/index.tsx:43 | typing replaces the input |
| HomeRoute.Home.OpenDisabled | src/routes/index.tsx:47 | the open button is disabled exactly when a submit would not navigate |
| HomeRoute.Home.Submit | src/routes/index.tsx:20-25 | navigates to NavigationTarget of the input, or not at all |
| Text.LeadingSpaces | src/components/AddTodo.tsx:11 | the length of the longest white-space prefix: everything before it is white space and the next character is not |
| Text.TrailingSpaces | src/components/AddTodo.tsx:11 | the length of the longest white-space suffix: everything after it is white space and the character before it is not |
| Text.IsSpace | src/components/AddTodo.tsx:11 | the characters trim removes: space, tab, line feed and carriage return among them, and never a digit or an ASCII letter |
| Text.Trim | src/components/AddTodo.tsx:11 | the input with exactly its white-space prefix and suffix removed: a contiguous slice with no white space at either end, everything before and after it white space, empty exactly when the input is blank |
| Text.TrimOfTrimmed | src/components/TodoItem.tsx:20 | a string without surrounding white space is its own trim |
| Text.TrimIdempotent | src/components/TodoItem.tsx:20 | trimming twice is trimming once |
| Text.TrimPadded | src/components/TodoItem.tsx:20-21 | trim removes exactly the white space added around a trimmed string |
| Text.LowerChar | src/routes/index.tsx:22 | maps upper-case ASCII letters to lower case, leaves every other character alone, and keeps white space as white space |
| Text.ToLower | src/routes/index.tsx:22 | same length, lowered character by character |
| Text.ToLowerKeepsShape | src/routes/index.tsx:22 | lowering keeps a trimmed string trimmed and is idempotent |
| Router.IsMcpPath | src/server.ts:14 | the path is "/mcp" itself or starts with "/mcp" followed by '/' |
| Router.LeadingSegment | src/server.ts:14 | the longest prefix without '/', followed by '/' or the end |
| Router.McpPathIsFirstSegment | src/server.ts:14 | the routing test holds exactly when the first path segment is "mcp" |
| Router.Route | src/server.ts:11-19 | goes to the MCP handler exactly when the first path segment is "mcp"; the request is passed on unchanged, with the database binding for MCP |
| Router.RoutingExamples | src/server.ts:14-18 | "/mcp", "/mcp/" and "/mcp/messages" go to MCP; "/mcpx", "/" and "/alice" go to the web application |

## Left out

- The storage engine, the query builder, SQL and the D1 binding (`createDb`) are not modelled. The table is a sequence of rows, and each query is a function over it.
- The sort order between rows with the same `createdAt` is not specified by the query. `Db.SortNewestFirst` picks one order: stable, in table order.
- `mcp/handler.ts` is not part of this model. It holds the transport, the per-request session, and closing the server in `finally`; all of that is I/O.
- `src/lib/server-fns.ts` is not part of this model. Its server functions pass their arguments straight to the data layer.
- `mcp-ui/src/App.tsx` (the embedded UI) and `mcp-ui/vite.config.ts` are not part of this model. The bundle text is a parameter of `McpServer.ReadUiResource`.
- Concurrency is not modelled. Requests run one after another, so the lost-update race between two concurrent toggles, which read and then write, cannot occur in the model.
- `crypto.randomUUID` and `new Date().toISOString()` are parameters. `Db.TodoTable.AddTodo` requires that the id is not already in the table; this stands in for UUID uniqueness. The clock is a `nat` that nothing constrains.
- `updatedAt` is not shown to increase, and `updatedAt >= createdAt` is not a table invariant. The code takes whatever the clock returns, so neither is guaranteed.
- Schema validation (zod), `JSON.stringify` and the SDK's registration machinery are not modelled. Tool arguments arrive already typed as `McpServer.ToolCall`. The serializers are function parameters. A validation failure never reaches a handler, so it has no model.
- `McpServer.ResourceMimeType` is `RESOURCE_MIME_TYPE`, a constant of the protocol SDK. The SDK is not part of this model, so its value is written here as a constant.
- An absent `isError` field is modelled as `isError == false`.
- The `description` column is nullable in the schema. No modelled operation writes a null, so `Todo.description` is a plain string.
- Text.LowerChar: lowers the ASCII letters A-Z only; JavaScript's `toLowerCase` also lowers other cased letters, such as "É" to "é".
- Text.ToLower: lowers ASCII letters only. JavaScript's `toLowerCase` also lowers other scripts and can change a string's length (for U+0130). It never turns a non-empty string into an empty one, and it never adds white space at either end.
- Rendering, styling, the copy shown in the UI, and the `filter` tab state are left out. The tab state is just a `Status` value, passed to `TodoListState.Visible`.
- The sequencing inside `TodoList`'s handlers is not modelled as one step: `startTransition`, the optimistic action, the awaited server call and the `setTodos` updater. The reducer and the updaters are modelled separately, and `TodoListState.ToggleReconcileAgrees` and `TodoListState.UpdateReconcileAgrees` relate them.
- The data layer and the tools accept any title string, including a blank one; only the web forms refuse blank input. Toggling twice restores `completed`, but `updatedAt` is not guaranteed to increase.
