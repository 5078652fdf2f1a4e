/** The protocol server: one UI resource and five tools, each tool a handler
    that runs one data-access operation and turns its outcome into a result
    with a single text block. `JSON.stringify(value, null, 2)` is passed in
    as the serializer parameters. */
module McpServer {
  import opened Schema
  import opened Db

  const UiResourceUri: string := "ui://todo/app.html"
  /** `RESOURCE_MIME_TYPE` of the apps extension of the protocol SDK. */
  const ResourceMimeType: string := "text/html;profile=mcp-app"
  const NotFoundText: string := "Todoが見つかりません。"

  /** `{ type: "text", text }`. */
  datatype TextContent = TextContent(text: string)

  /** `{ content, isError? }`; an absent `isError` is `false`. */
  datatype ToolResult = ToolResult(content: seq<TextContent>, isError: bool)

  function Success(text: string): (r: ToolResult)
    ensures r.content == [TextContent(text)] && !r.isError
  {
    ToolResult([TextContent(text)], false)
  }

  /** The single result all three by-id tools give for a missing todo. */
  function NotFound(): (r: ToolResult)
    ensures r.content == [TextContent(NotFoundText)] && r.isError
  {
    ToolResult([TextContent(NotFoundText)], true)
  }

  /** The title framed by the corner brackets every confirmation uses. */
  function Quoted(title: string): string {
    "Todo「" + title + "」"
  }

  // ---------------------------------------------------------------------
  // Result builders

  /** `list_todos`: the serialized list, a success even when it is empty. */
  function ListTodosResult(todos: seq<Todo>, serializeList: seq<Todo> -> string): (r: ToolResult)
    ensures |r.content| == 1 && !r.isError
    ensures r.content[0].text == serializeList(todos)
  {
    Success(serializeList(todos))
  }

  /** `add_todo`: never an error; names the title, then the serialized
      todo. */
  function AddTodoResult(todo: Todo, serialize: Todo -> string): (r: ToolResult)
    ensures |r.content| == 1 && !r.isError
    ensures r.content[0].text == Quoted(todo.title) + "を追加しました。\n" + serialize(todo)
  {
    Success(Quoted(todo.title) + "を追加しました。\n" + serialize(todo))
  }

  /** `update_todo`: an error exactly when the data layer found nothing. */
  function UpdateTodoResult(updated: Option<Todo>, serialize: Todo -> string): (r: ToolResult)
    ensures |r.content| == 1
    ensures r.isError <==> updated.None?
    ensures updated.None? ==> r == NotFound()
    ensures updated.Some? ==> r.content[0].text == "Todoを更新しました。\n" + serialize(updated.value)
  {
    match updated
    case None => NotFound()
    case Some(todo) => Success("Todoを更新しました。\n" + serialize(todo))
  }

  /** The state the `complete_todo` confirmation names. */
  function StateWord(completed: bool): (w: string)
    ensures |w| >= 2 && w[|w| - 2..] == "完了"
    ensures completed <==> |w| == 2
  {
    if completed then "完了" else "未完了"
  }

  /** `complete_todo`: an error exactly when the data layer found nothing;
      otherwise names the title and the new state, then the serialized
      todo. */
  function CompleteTodoResult(toggled: Option<Todo>, serialize: Todo -> string): (r: ToolResult)
    ensures |r.content| == 1
    ensures r.isError <==> toggled.None?
    ensures toggled.None? ==> r == NotFound()
    ensures toggled.Some? ==>
      r.content[0].text == Quoted(toggled.value.title) + "を" + StateWord(toggled.value.completed)
                           + "にしました。\n" + serialize(toggled.value)
  {
    match toggled
    case None => NotFound()
    case Some(todo) =>
      Success(Quoted(todo.title) + "を" + StateWord(todo.completed) + "にしました。\n" + serialize(todo))
  }

  /** `delete_todo`: an error exactly when the data layer found nothing;
      otherwise names the deleted title and carries no serialized payload. */
  function DeleteTodoResult(deleted: Option<Todo>): (r: ToolResult)
    ensures |r.content| == 1
    ensures r.isError <==> deleted.None?
    ensures deleted.None? ==> r == NotFound()
    ensures deleted.Some? ==> r.content[0].text == Quoted(deleted.value.title) + "を削除しました。"
  {
    match deleted
    case None => NotFound()
    case Some(todo) => Success(Quoted(todo.title) + "を削除しました。")
  }

  /** The `complete_todo` confirmation tells the two states apart before
      the payload: for the same title, a completed and an open todo give
      texts that differ right after the title, whatever the serializer. */
  lemma {:induction false} CompleteTextNamesState(t: Todo, u: Todo, serialize: Todo -> string)
    requires t.title == u.title && t.completed != u.completed
    ensures var n := |Quoted(t.title) + "を"|;
      var tt := CompleteTodoResult(Some(t), serialize).content[0].text;
      var ut := CompleteTodoResult(Some(u), serialize).content[0].text;
      n < |tt| && n < |ut| && tt[..n] == ut[..n] && tt[n] != ut[n]
  {
    StateWordsDiffer(t.completed, u.completed);
    TextsDifferAt(Quoted(t.title) + "を", StateWord(t.completed), StateWord(u.completed),
                  "にしました。\n", serialize(t), serialize(u));
  }

  lemma StateWordsDiffer(a: bool, b: bool)
    requires a != b
    ensures StateWord(a) != [] && StateWord(b) != [] && StateWord(a)[0] != StateWord(b)[0]
  {
  }

  /** Two texts that share a prefix and then differ in the first character
      of the next piece differ right after that prefix. */
  lemma TextsDifferAt(p: string, wt: string, wu: string, m: string, xt: string, xu: string)
    requires wt != [] && wu != [] && wt[0] != wu[0]
    ensures var tt := p + wt + m + xt;
      var ut := p + wu + m + xu;
      |p| < |tt| && |p| < |ut| && tt[..|p|] == ut[..|p|] && tt[|p|] != ut[|p|]
  {
    var tt := p + wt + m + xt;
    var ut := p + wu + m + xu;
    assert tt[..|p|] == p && ut[..|p|] == p;
    assert tt[|p|] == wt[0] && ut[|p|] == wu[0];
  }

  /** The `delete_todo` confirmation depends on the deleted todo's title
      alone: none of its other fields reach the text. */
  lemma DeleteTextNamesOnlyTitle(t: Todo, u: Todo)
    requires t.title == u.title
    ensures DeleteTodoResult(Some(t)) == DeleteTodoResult(Some(u))
  {
  }

  // ---------------------------------------------------------------------
  // Handlers

  /** `update_todo` forwards a field to the data layer exactly when the
      caller supplied it; with neither, it forwards the empty update. */
  function UpdateArguments(title: Option<string>, description: Option<string>): (p: Patch)
    ensures p.title == title && p.description == description
  {
    Patch(if title.Some? then title else None, if description.Some? then description else None)
  }

  /** The empty update only refreshes `updatedAt`. */
  lemma EmptyUpdateTouchesOnlyUpdatedAt(t: Todo, now: Timestamp)
    ensures Patched(t, UpdateArguments(None, None), now) == t.(updatedAt := now)
  {
  }

  method ListTodos(table: TodoTable, username: string, status: Option<Status>, serializeList: seq<Todo> -> string)
    returns (r: ToolResult)
    ensures r == ListTodosResult(Select(table.rows, username, Some(status.GetOr(All))), serializeList)
  {
    var todos := table.GetTodos(username, Some(status.GetOr(All)));
    r := ListTodosResult(todos, serializeList);
  }

  method AddTodo(table: TodoTable, username: string, title: string, description: Option<string>,
                 freshId: string, now: Timestamp, serialize: Todo -> string)
    returns (r: ToolResult)
    requires table.Valid() && !HasId(table.rows, freshId)
    modifies table
    ensures table.Valid()
    ensures var todo := Todo(freshId, title, description.GetOr(""), false, username, now, now);
      && table.rows == old(table.rows) + [todo]
      && r == AddTodoResult(todo, serialize)
    ensures OthersUntouched(old(table.rows), table.rows, username)
  {
    var todo := table.AddTodo(freshId, username, title, description, now);
    assert multiset(table.rows) == multiset(old(table.rows)) + multiset{todo};
    r := AddTodoResult(todo, serialize);
  }

  method UpdateTodo(table: TodoTable, id: string, username: string, title: Option<string>,
                    description: Option<string>, now: Timestamp, serialize: Todo -> string)
    returns (r: ToolResult)
    requires table.Valid()
    modifies table
    ensures table.Valid()
    ensures |r.content| == 1
    ensures r.isError <==> FindOwned(old(table.rows), id, username).None?
    ensures OthersUntouched(old(table.rows), table.rows, username)
    ensures match FindOwned(old(table.rows), id, username)
      case None => r == NotFound() && table.rows == old(table.rows)
      case Some(i) =>
        var todo := Patched(old(table.rows)[i], Patch(title, description), now);
        r == UpdateTodoResult(Some(todo), serialize) && table.rows == old(table.rows)[i := todo]
  {
    var data := UpdateArguments(title, description);
    var todo := table.UpdateTodo(id, username, data, now);
    r := UpdateTodoResult(todo, serialize);
  }

  method CompleteTodo(table: TodoTable, id: string, username: string, now: Timestamp, serialize: Todo -> string)
    returns (r: ToolResult)
    requires table.Valid()
    modifies table
    ensures table.Valid()
    ensures |r.content| == 1
    ensures r.isError <==> FindOwned(old(table.rows), id, username).None?
    ensures OthersUntouched(old(table.rows), table.rows, username)
    ensures match FindOwned(old(table.rows), id, username)
      case None => r == NotFound() && table.rows == old(table.rows)
      case Some(i) =>
        var todo := Toggled(old(table.rows)[i], now);
        r == CompleteTodoResult(Some(todo), serialize) && table.rows == old(table.rows)[i := todo]
  {
    var todo := table.ToggleTodo(id, username, now);
    r := CompleteTodoResult(todo, serialize);
  }

  method DeleteTodo(table: TodoTable, id: string, username: string) returns (r: ToolResult)
    requires table.Valid()
    modifies table
    ensures table.Valid()
    ensures |r.content| == 1
    ensures r.isError <==> FindOwned(old(table.rows), id, username).None?
    ensures OthersUntouched(old(table.rows), table.rows, username)
    ensures match FindOwned(old(table.rows), id, username)
      case None => r == NotFound() && table.rows == old(table.rows)
      case Some(i) =>
        r == DeleteTodoResult(Some(old(table.rows)[i]))
        && table.rows == old(table.rows)[..i] + old(table.rows)[i + 1..]
  {
    var todo := table.DeleteTodo(id, username);
    r := DeleteTodoResult(todo);
  }

  // ---------------------------------------------------------------------
  // Dispatch

  /** A tool call whose arguments passed schema validation. */
  datatype ToolCall =
    | ListTodosCall(username: string, status: Option<Status>)
    | AddTodoCall(username: string, title: string, description: Option<string>)
    | UpdateTodoCall(id: string, username: string, newTitle: Option<string>, newDescription: Option<string>)
    | CompleteTodoCall(id: string, username: string)
    | DeleteTodoCall(id: string, username: string)

  function ToolName(call: ToolCall): string {
    match call
    case ListTodosCall(_, _) => "list_todos"
    case AddTodoCall(_, _, _) => "add_todo"
    case UpdateTodoCall(_, _, _, _) => "update_todo"
    case CompleteTodoCall(_, _) => "complete_todo"
    case DeleteTodoCall(_, _) => "delete_todo"
  }

  /** The tools that address one todo by `(id, username)`. */
  predicate ById(call: ToolCall) {
    call.UpdateTodoCall? || call.CompleteTodoCall? || call.DeleteTodoCall?
  }

  /** Runs one tool call. Every call yields one text block; a call is an
      error only when it names a todo that `(id, username)` does not
      designate, and then nothing in the table has changed. */
  method CallTool(table: TodoTable, call: ToolCall, freshId: string, now: Timestamp,
                  serialize: Todo -> string, serializeList: seq<Todo> -> string)
    returns (r: ToolResult)
    requires table.Valid() && !HasId(table.rows, freshId)
    modifies table
    ensures table.Valid()
    ensures |r.content| == 1
    ensures r.isError <==> ById(call) && FindOwned(old(table.rows), call.id, call.username).None?
    ensures r.isError ==> r == NotFound() && table.rows == old(table.rows)
    ensures OthersUntouched(old(table.rows), table.rows, call.username)
    ensures call.ListTodosCall? ==>
      && table.rows == old(table.rows)
      && r == ListTodosResult(Select(old(table.rows), call.username, Some(call.status.GetOr(All))), serializeList)
    ensures call.AddTodoCall? ==>
      var todo := Todo(freshId, call.title, call.description.GetOr(""), false, call.username, now, now);
      && table.rows == old(table.rows) + [todo]
      && r == AddTodoResult(todo, serialize)
    ensures call.UpdateTodoCall? && FindOwned(old(table.rows), call.id, call.username).Some? ==>
      var i := FindOwned(old(table.rows), call.id, call.username).value;
      var todo := Patched(old(table.rows)[i], Patch(call.newTitle, call.newDescription), now);
      && table.rows == old(table.rows)[i := todo]
      && r == UpdateTodoResult(Some(todo), serialize)
    ensures call.CompleteTodoCall? && FindOwned(old(table.rows), call.id, call.username).Some? ==>
      var i := FindOwned(old(table.rows), call.id, call.username).value;
      var todo := Toggled(old(table.rows)[i], now);
      && table.rows == old(table.rows)[i := todo]
      && r == CompleteTodoResult(Some(todo), serialize)
    ensures call.DeleteTodoCall? && FindOwned(old(table.rows), call.id, call.username).Some? ==>
      var i := FindOwned(old(table.rows), call.id, call.username).value;
      && table.rows == old(table.rows)[..i] + old(table.rows)[i + 1..]
      && r == DeleteTodoResult(Some(old(table.rows)[i]))
  {
    match call
    case ListTodosCall(username, status) =>
      r := ListTodos(table, username, status, serializeList);
    case AddTodoCall(username, title, description) =>
      r := AddTodo(table, username, title, description, freshId, now, serialize);
    case UpdateTodoCall(id, username, title, description) =>
      r := UpdateTodo(table, id, username, title, description, now, serialize);
    case CompleteTodoCall(id, username) =>
      r := CompleteTodo(table, id, username, now, serialize);
    case DeleteTodoCall(id, username) =>
      r := DeleteTodo(table, id, username);
  }

  // ---------------------------------------------------------------------
  // Registry

  datatype InputField = InputField(name: string, required: bool)

  datatype ToolDecl = ToolDecl(
    name: string, title: string, description: string,
    inputSchema: seq<InputField>, resourceUri: string)

  datatype ResourceDecl = ResourceDecl(name: string, uri: string, description: string)

  /** `{ uri, mimeType, text }` of a resource read. */
  datatype ResourceContents = ResourceContents(uri: string, mimeType: string, text: string)

  /** The read callback of the UI resource: one entry, the bundle verbatim. */
  function ReadUiResource(bundle: string): (contents: seq<ResourceContents>)
    ensures |contents| == 1
    ensures contents[0].uri == UiResourceUri && contents[0].mimeType == ResourceMimeType
    ensures contents[0].text == bundle
  {
    [ResourceContents(UiResourceUri, ResourceMimeType, bundle)]
  }

  const UiResource := ResourceDecl("Todo App UI", UiResourceUri, "Interactive Todo list application")

  /** The five tool declarations, in registration order. */
  function ToolDeclarations(): (tools: seq<ToolDecl>)
    ensures |tools| == 5
    ensures forall i :: 0 <= i < |tools| ==> tools[i].resourceUri == UiResourceUri
    ensures forall i, j :: 0 <= i < j < |tools| ==> tools[i].name != tools[j].name
  {
    [ ToolDecl("list_todos", "Todo一覧取得", "指定ユーザーのTodo一覧を取得します",
               [InputField("username", true), InputField("status", false)], UiResourceUri),
      ToolDecl("add_todo", "Todo追加", "新しいTodoを追加します",
               [InputField("username", true), InputField("title", true), InputField("description", false)],
               UiResourceUri),
      ToolDecl("update_todo", "Todo更新", "既存のTodoのタイトルや説明を更新します",
               [InputField("id", true), InputField("username", true),
                InputField("title", false), InputField("description", false)], UiResourceUri),
      ToolDecl("complete_todo", "Todo完了トグル", "Todoの完了/未完了を切り替えます",
               [InputField("id", true), InputField("username", true)], UiResourceUri),
      ToolDecl("delete_todo", "Todo削除", "Todoを削除します",
               [InputField("id", true), InputField("username", true)], UiResourceUri) ]
  }

  /** Every call `CallTool` accepts is addressed to a declared tool. */
  lemma EveryCallIsDeclared(call: ToolCall)
    ensures exists i :: 0 <= i < |ToolDeclarations()| && ToolDeclarations()[i].name == ToolName(call)
  {
    var tools := ToolDeclarations();
    match call
    case ListTodosCall(_, _) => assert tools[0].name == ToolName(call);
    case AddTodoCall(_, _, _) => assert tools[1].name == ToolName(call);
    case UpdateTodoCall(_, _, _, _) => assert tools[2].name == ToolName(call);
    case CompleteTodoCall(_, _) => assert tools[3].name == ToolName(call);
    case DeleteTodoCall(_, _) => assert tools[4].name == ToolName(call);
  }

  /** The server's registry of resources and tools. */
  class McpRegistry {
    var resources: seq<ResourceDecl>
    var tools: seq<ToolDecl>

    constructor ()
      ensures resources == [] && tools == []
    {
      resources := [];
      tools := [];
    }

    method RegisterAppResource(decl: ResourceDecl)
      modifies this
      ensures resources == old(resources) + [decl] && tools == old(tools)
    {
      resources := resources + [decl];
    }

    method RegisterAppTool(decl: ToolDecl)
      modifies this
      ensures tools == old(tools) + [decl] && resources == old(resources)
    {
      tools := tools + [decl];
    }
  }

  /** `createMcpServer`: registers the UI resource, then the five tools, each
      tied to the UI resource. */
  method CreateMcpServer() returns (server: McpRegistry)
    ensures fresh(server)
    ensures server.resources == [UiResource]
    ensures server.tools == ToolDeclarations()
    ensures forall d :: d in server.tools ==> d.resourceUri == server.resources[0].uri
  {
    server := new McpRegistry();
    server.RegisterAppResource(UiResource);
    var decls := ToolDeclarations();
    server.RegisterAppTool(decls[0]);
    server.RegisterAppTool(decls[1]);
    server.RegisterAppTool(decls[2]);
    server.RegisterAppTool(decls[3]);
    server.RegisterAppTool(decls[4]);
    assert server.tools == decls;
  }
}
