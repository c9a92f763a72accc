/**
 The terminal UI: its main loop, which polls all servers and then handles a key,
 one mode per screen, cursors into the server list, the task list and the file
 list, and the file editor. What the network or the terminal supplies is an
 input; what the UI asks of the TaskManager comes out as a list of actions, of
 which toggling, refreshing and starting tasks change its state.
 */
module Ui {
  import opened Text
  import opened Editor
  import C = TaskManager

  datatype Mode =
    | Main | ServerMenu | ServerTerminal | ServerLogs | ServerKill | ServerStats | ServerFiles
    | FileEditor | FileOperations | MultiServerExec | AiAssistant | NetworkTopology | SecurityScanner
    | PerformanceAnalytics | ClusterManager | BackupRestore | MonitoringDashboard | ScriptLibrary | AlertCenter

  datatype FileInfo = FileInfo(name: string, isDir: bool)

  /** What getch() returns when no key comes. */
  const ERR := -1

  /**
   One round of the main loop: what the servers answer to its poll; the key; and what
   the handler reads from outside: the file listing, a file's content, and what the
   servers would answer to a refresh or to a command.
   */
  datatype Input = Input(
    poll: seq<C.Reply>, key: int, height: int, files: seq<FileInfo>, content: string,
    replies: seq<C.Reply>, execReplies: seq<Option<string>>)

  predicate OnePerServer(input: Input, servers: seq<C.Server>) {
    |input.poll| == |input.replies| == |input.execReplies| == |servers|
  }

  datatype Action =
    | Toggle(server: nat)
    | Refresh
    | Exec(server: nat, command: string)
    | Kill(task: C.Task)
    | ReadFile(server: nat, name: string)
    | WriteFile(server: nat, name: string, content: string)
    | DeleteFile(server: nat, name: string)
    | Ask(query: string)

  datatype UiState = UiState(
    mode: Mode, selectedServer: int, selectedTask: int, selectedFile: int,
    inputBuffer: string, history: seq<string>, aiInput: string,
    editFile: string, editor: State, clipboardFile: string, clipboardIsCut: bool,
    tasks: seq<C.Task>, selected: seq<bool>)

  /** `threw` is an exception that leaves the handler: nothing catches it. */
  datatype Handled = Handled(state: UiState, actions: seq<Action>, threw: bool)

  /** `size() - 1` on an unsigned size. */
  function LastIndex(size: nat): nat {
    if size == 0 then ULONG_MAX else size - 1
  }

  predicate Letter(key: int, lower: char) {
    key == lower as int || (lower >= 'a' && key == lower as int - 32)
  }

  // ------------------------------------------------------------ mode by mode

  /** tm.refreshTasks(): a bad reply throws, with what came before it applied. */
  function HandleRefresh(u: UiState, servers: seq<C.Server>, replies: seq<C.Reply>): Handled
    requires |servers| == |replies|
  {
    var (tasks, complete) := C.RefreshedAll(u.tasks, servers, replies);
    Handled(u.(tasks := tasks), [Refresh], !complete)
  }

  function HandleMain(u: UiState, servers: seq<C.Server>, input: Input): Handled
    requires 0 <= u.selectedServer < |servers| && OnePerServer(input, servers)
  {
    var key, i := input.key, u.selectedServer;
    if key == KEY_UP && i > 0 then Handled(u.(selectedServer := i - 1), [], false)
    else if key == KEY_DOWN && i < LastIndex(|servers|) then Handled(u.(selectedServer := i + 1), [], false)
    else if key == ' ' as int then Handled(u.(selected := C.Toggled(u.selected, i)), [Toggle(i)], false)
    else if key == ENTER then Handled(u.(mode := ServerMenu), [], false)
    else if Letter(key, 'r') then HandleRefresh(u, servers, input.replies)
    else Handled(u, [], false)
  }

  function MenuTarget(key: int): Mode {
    if key == '1' as int then ServerTerminal
    else if key == '2' as int then ServerLogs
    else if key == '3' as int then ServerKill
    else if key == '4' as int then ServerStats
    else if key == '5' as int then ServerFiles
    else if key == '6' as int then MultiServerExec
    else if key == '7' as int then AiAssistant
    else if key == '8' as int then NetworkTopology
    else if key == '9' as int then SecurityScanner
    else if Letter(key, 'a') then PerformanceAnalytics
    else if Letter(key, 'b') then ClusterManager
    else if Letter(key, 'c') then BackupRestore
    else if Letter(key, 'd') then MonitoringDashboard
    else if Letter(key, 'e') then ScriptLibrary
    else if Letter(key, 'f') then AlertCenter
    else if key == ESC then Main
    else ServerMenu
  }

  function HandleMenu(u: UiState, input: Input): Handled {
    var target := MenuTarget(input.key);
    Handled(u.(mode := target, selectedFile := if target == ServerFiles then 0 else u.selectedFile), [], false)
  }

  /** The prompts' last `else` belongs to the inner `if`: a key is appended only if it is a backspace that prints. */
  function Prompt(buffer: string, key: int): string {
    if IsBackspace(key) then
      if buffer != "" then buffer[..|buffer| - 1]
      else if IsPrint(key) then buffer + [key as char]
      else buffer
    else buffer
  }

  function HandleTerminal(u: UiState, servers: seq<C.Server>, input: Input): Handled
    requires 0 <= u.selectedServer < |servers| && OnePerServer(input, servers)
  {
    var i := u.selectedServer;
    if input.key == ENTER && u.inputBuffer != "" then
      var v := u.(history := u.history + [u.inputBuffer]);
      match input.execReplies[i] {
        case None => Handled(v, [Exec(i, u.inputBuffer)], true)
        case Some(id) =>
          Handled(v.(inputBuffer := "", tasks := u.tasks + [C.Task(id, servers[i].name, u.inputBuffer, C.Running)]),
                  [Exec(i, u.inputBuffer)], false)
      }
    else if input.key == ESC then Handled(u.(mode := ServerMenu), [], false)
    else Handled(u.(inputBuffer := Prompt(u.inputBuffer, input.key)), [], false)
  }

  /** The client's tasks on one server that it holds as RUNNING. */
  function RunningTasks(tasks: seq<C.Task>, server: string): (r: seq<C.Task>)
    ensures forall t <- r :: t in tasks && t.server == server && t.state.Running?
  {
    if tasks == [] then [] else
    var last := tasks[|tasks| - 1];
    RunningTasks(tasks[..|tasks| - 1], server) + if last.server == server && last.state.Running? then [last] else []
  }

  function HandleKill(u: UiState, servers: seq<C.Server>, input: Input): Handled
    requires 0 <= u.selectedServer < |servers| && 0 <= u.selectedTask
  {
    var key := input.key;
    var running := RunningTasks(u.tasks, servers[u.selectedServer].name);
    if key == ENTER && running != [] && u.selectedTask < |running| then
      Handled(u.(selectedTask := 0), [Kill(running[u.selectedTask])], false)
    else if key == KEY_UP && u.selectedTask > 0 then Handled(u.(selectedTask := u.selectedTask - 1), [], false)
    else if key == KEY_DOWN && u.selectedTask < LastIndex(|running|) then
      Handled(u.(selectedTask := u.selectedTask + 1), [], false)
    else if key == ESC then Handled(u.(mode := ServerMenu, selectedTask := 0), [], false)
    else Handled(u, [], false)
  }

  function EditorOn(u: UiState, name: string, lines: seq<string>): UiState {
    u.(mode := FileEditor, editFile := name, editor := State(lines, 0, 0, u.editor.scroll))
  }

  function HandleFiles(u: UiState, input: Input): Handled
    requires 0 <= u.selectedServer && 0 <= u.selectedFile
  {
    var key, files, i := input.key, input.files, u.selectedFile;
    var onFile := i < |files|;
    if key == KEY_UP && i > 0 then Handled(u.(selectedFile := i - 1), [], false)
    else if key == KEY_DOWN && i < LastIndex(|files|) then Handled(u.(selectedFile := i + 1), [], false)
    else if Letter(key, 'd') && onFile then Handled(u, [DeleteFile(u.selectedServer, files[i].name)], false)
    else if key == ESC then Handled(u.(mode := ServerMenu), [], false)
    else if Letter(key, 'n') || Letter(key, 'e') then HandleOpen(u, input)
    else HandleClipboard(u, input)
  }

  /** A new file, or the file under the cursor. */
  function HandleOpen(u: UiState, input: Input): Handled
    requires 0 <= u.selectedServer && 0 <= u.selectedFile
  {
    var key, files, i := input.key, input.files, u.selectedFile;
    if Letter(key, 'n') then Handled(EditorOn(u, "newfile.txt", [""]), [], false)
    else if Letter(key, 'e') && i < |files| && !files[i].isDir then
      Handled(EditorOn(u, files[i].name, OpenLines(input.content)), [ReadFile(u.selectedServer, files[i].name)], false)
    else Handled(u, [], false)
  }

  /** Copy, cut and paste. */
  function HandleClipboard(u: UiState, input: Input): Handled
    requires 0 <= u.selectedServer && 0 <= u.selectedFile
  {
    var key, files, i := input.key, input.files, u.selectedFile;
    if Letter(key, 'c') && i < |files| then Handled(u.(clipboardFile := files[i].name, clipboardIsCut := false), [], false)
    else if Letter(key, 'x') && i < |files| then Handled(u.(clipboardFile := files[i].name, clipboardIsCut := true), [], false)
    else if Letter(key, 'v') && u.clipboardFile != "" then
      var pasted := [ReadFile(u.selectedServer, u.clipboardFile),
                     WriteFile(u.selectedServer, "copy_of_" + u.clipboardFile, input.content)];
      if u.clipboardIsCut then
        Handled(u.(clipboardFile := ""), pasted + [DeleteFile(u.selectedServer, u.clipboardFile)], false)
      else Handled(u, pasted, false)
    else Handled(u, [], false)
  }

  function HandleEditor(u: UiState, input: Input): Handled
    requires 0 <= u.selectedServer && InBounds(u.editor)
  {
    var (editor, outcome) := Step(u.editor, input.key, input.height);
    match outcome
    case Continue => Handled(u.(editor := editor), [], false)
    case Save(content) => Handled(u.(mode := ServerFiles), [WriteFile(u.selectedServer, u.editFile, content)], false)
    case Quit => Handled(u.(mode := ServerFiles), [], false)
    case Throws => Handled(u, [], true)
  }

  /** The commands sent to the selected servers, the tasks they start, and whether all replies had an id. */
  function ExecOnSelected(selected: seq<bool>, servers: seq<C.Server>, command: string, replies: seq<Option<string>>):
    (r: (seq<Action>, seq<C.Task>, bool))
    requires |selected| <= |servers| == |replies|
  {
    if selected == [] then ([], [], true) else
    var i := |selected| - 1;
    var (actions, tasks, ok) := ExecOnSelected(selected[..i], servers, command, replies);
    if !ok || !selected[i] then (actions, tasks, ok)
    else if replies[i].None? then (actions + [Exec(i, command)], tasks, false)
    else (actions + [Exec(i, command)], tasks + [C.Task(replies[i].value, servers[i].name, command, C.Running)], true)
  }

  function HandleMultiExec(u: UiState, servers: seq<C.Server>, input: Input): Handled
    requires |u.selected| == |servers| && OnePerServer(input, servers)
  {
    if input.key == ENTER && u.inputBuffer != "" then
      var (actions, tasks, ok) := ExecOnSelected(u.selected, servers, u.inputBuffer, input.execReplies);
      Handled(u.(history := u.history + [u.inputBuffer], inputBuffer := if ok then "" else u.inputBuffer,
                 tasks := u.tasks + tasks),
              actions, !ok)
    else if input.key == ESC then Handled(u.(mode := Main), [], false)
    else Handled(u.(inputBuffer := Prompt(u.inputBuffer, input.key)), [], false)
  }

  function HandleAi(u: UiState, input: Input): Handled {
    if input.key == ENTER && u.aiInput != "" then Handled(u.(aiInput := ""), [Ask(u.aiInput)], false)
    else if input.key == ESC then Handled(u.(mode := ServerMenu), [], false)
    else Handled(u.(aiInput := Prompt(u.aiInput, input.key)), [], false)
  }

  predicate HasRefresh(mode: Mode) {
    mode in {NetworkTopology, SecurityScanner, PerformanceAnalytics, MonitoringDashboard, AlertCenter}
  }

  /** What holds in every reachable state with at least one server. */
  predicate Inv(u: UiState, servers: seq<C.Server>) {
    && 0 <= u.selectedServer < |servers|
    && 0 <= u.selectedTask && 0 <= u.selectedFile && 0 <= u.editor.scroll
    && u.inputBuffer == "" && u.aiInput == ""
    && u.mode != FileOperations && |u.selected| == |servers|
    && (u.mode == FileEditor ==> InBounds(u.editor) && NewlineFree(u.editor.lines))
  }

  predicate AsksRefresh(mode: Mode, key: int) {
    (mode == Main || HasRefresh(mode)) && Letter(key, 'r')
  }

  /** UI::handleInput. */
  function Handle(u: UiState, servers: seq<C.Server>, input: Input): Handled
    requires Inv(u, servers) && OnePerServer(input, servers)
  {
    match u.mode
    case Main => HandleMain(u, servers, input)
    case ServerMenu => HandleMenu(u, input)
    case ServerTerminal => HandleTerminal(u, servers, input)
    case ServerKill => HandleKill(u, servers, input)
    case ServerFiles => HandleFiles(u, input)
    case FileEditor => HandleEditor(u, input)
    case MultiServerExec => HandleMultiExec(u, servers, input)
    case AiAssistant => HandleAi(u, input)
    case FileOperations => Handled(u, [], false) // a mode without a branch, and no way into it
    case _ => HandlePanel(u, servers, input)
  }

  /** The panels that can only be refreshed and left. */
  function HandlePanel(u: UiState, servers: seq<C.Server>, input: Input): Handled
    requires OnePerServer(input, servers)
  {
    if HasRefresh(u.mode) && Letter(input.key, 'r') then HandleRefresh(u, servers, input.replies)
    else Handled(if input.key == ESC then u.(mode := ServerMenu) else u, [], false)
  }

  // ------------------------------------------------------------- what is safe

  /**
   What an action may do: it concerns the selected server; it kills only what the
   client holds as RUNNING there; it reads or deletes only the file under the cursor
   or the clipboard's, the latter's deletion only after a cut; it writes only the
   edited file or the pasted copy. Sending a command or a query is not among it.
   */
  predicate Safe(a: Action, u: UiState, servers: seq<C.Server>, input: Input) {
    0 <= u.selectedServer < |servers| &&
    match a
    case Toggle(i) => u.mode.Main? && i == u.selectedServer
    case Refresh => u.mode.Main? || HasRefresh(u.mode)
    case Exec(_, _) => false
    case Ask(_) => false
    case Kill(t) =>
      u.mode.ServerKill? && t in u.tasks && t.state.Running? && t.server == servers[u.selectedServer].name
    case ReadFile(i, name) =>
      i == u.selectedServer && u.mode.ServerFiles? && (UnderCursor(name, u, input) || OnClipboard(name, u))
    case WriteFile(i, name, _) =>
      && i == u.selectedServer
      && ((u.mode.FileEditor? && name == u.editFile) || (u.mode.ServerFiles? && name == "copy_of_" + u.clipboardFile))
    case DeleteFile(i, name) =>
      && i == u.selectedServer && u.mode.ServerFiles?
      && (UnderCursor(name, u, input) || (OnClipboard(name, u) && u.clipboardIsCut))
  }

  predicate UnderCursor(name: string, u: UiState, input: Input) {
    0 <= u.selectedFile < |input.files| && input.files[u.selectedFile].name == name
  }

  predicate OnClipboard(name: string, u: UiState) {
    name == u.clipboardFile && name != ""
  }

  lemma OpenNewlineFree(content: string)
    ensures NewlineFree(OpenLines(content)) && InBounds(State(OpenLines(content), 0, 0, 0))
  {
    SavedOfOpen(content);
  }

  lemma EditorOnKeepsInv(u: UiState, servers: seq<C.Server>, name: string, lines: seq<string>)
    requires Inv(u, servers) && lines != [] && NewlineFree(lines)
    ensures Inv(EditorOn(u, name, lines), servers)
  {
  }

  lemma FilesKeepInv(u: UiState, servers: seq<C.Server>, input: Input)
    requires Inv(u, servers) && u.mode == ServerFiles
    ensures Inv(HandleFiles(u, input).state, servers)
  {
    OpenKeepsInv(u, servers, input);
    ClipboardKeepsInv(u, servers, input);
  }

  lemma OpenKeepsInv(u: UiState, servers: seq<C.Server>, input: Input)
    requires Inv(u, servers)
    ensures Inv(HandleOpen(u, input).state, servers)
  {
    OpenNewlineFree(input.content);
    EditorOnKeepsInv(u, servers, "newfile.txt", [""]);
    if u.selectedFile < |input.files| {
      EditorOnKeepsInv(u, servers, input.files[u.selectedFile].name, OpenLines(input.content));
    }
  }

  lemma ClipboardKeepsInv(u: UiState, servers: seq<C.Server>, input: Input)
    requires Inv(u, servers) && u.mode == ServerFiles
    ensures Inv(HandleClipboard(u, input).state, servers)
  {
  }

  lemma FilesSafe(u: UiState, servers: seq<C.Server>, input: Input)
    requires Inv(u, servers) && u.mode == ServerFiles
    ensures forall a <- HandleFiles(u, input).actions :: Safe(a, u, servers, input)
  {
    ClipboardSafe(u, servers, input);
    if u.selectedFile < |input.files| {
      assert UnderCursor(input.files[u.selectedFile].name, u, input);
    }
  }

  lemma ClipboardSafe(u: UiState, servers: seq<C.Server>, input: Input)
    requires Inv(u, servers) && u.mode == ServerFiles
    ensures forall a <- HandleClipboard(u, input).actions :: Safe(a, u, servers, input)
  {
  }

  lemma EditorSafe(u: UiState, servers: seq<C.Server>, input: Input)
    requires Inv(u, servers) && u.mode == FileEditor
    ensures Inv(HandleEditor(u, input).state, servers)
    ensures forall a <- HandleEditor(u, input).actions :: Safe(a, u, servers, input)
  {
    StepInBounds(u.editor, input.key, input.height);
    StepNewlineFree(u.editor, input.key, input.height);
  }

  lemma MainSafe(u: UiState, servers: seq<C.Server>, input: Input)
    requires Inv(u, servers) && OnePerServer(input, servers) && u.mode == Main
    ensures Inv(HandleMain(u, servers, input).state, servers)
    ensures forall a <- HandleMain(u, servers, input).actions :: Safe(a, u, servers, input)
  {
  }

  lemma KillSafe(u: UiState, servers: seq<C.Server>, input: Input)
    requires Inv(u, servers) && u.mode == ServerKill
    ensures Inv(HandleKill(u, servers, input).state, servers)
    ensures forall a <- HandleKill(u, servers, input).actions :: Safe(a, u, servers, input)
  {
  }

  /** The prompts' buffers are empty and stay so. */
  lemma PromptsSafe(u: UiState, servers: seq<C.Server>, input: Input)
    requires Inv(u, servers) && OnePerServer(input, servers)
    ensures Inv(HandleTerminal(u, servers, input).state, servers) && HandleTerminal(u, servers, input).actions == []
    ensures Inv(HandleMultiExec(u, servers, input).state, servers) && HandleMultiExec(u, servers, input).actions == []
    ensures Inv(HandleAi(u, input).state, servers) && HandleAi(u, input).actions == []
  {
  }

  lemma PanelSafe(u: UiState, servers: seq<C.Server>, input: Input)
    requires Inv(u, servers) && OnePerServer(input, servers) && u.mode != FileEditor
    ensures Inv(HandlePanel(u, servers, input).state, servers)
    ensures forall a <- HandlePanel(u, servers, input).actions :: Safe(a, u, servers, input)
  {
  }

  lemma MenuSafe(u: UiState, servers: seq<C.Server>, input: Input)
    requires Inv(u, servers) && u.mode == ServerMenu
    ensures Inv(HandleMenu(u, input).state, servers) && HandleMenu(u, input).actions == []
  {
  }

  /** Every key keeps the invariant, and every action it causes is safe. */
  lemma HandleSafe(u: UiState, servers: seq<C.Server>, input: Input)
    requires Inv(u, servers) && OnePerServer(input, servers)
    ensures Inv(Handle(u, servers, input).state, servers)
    ensures forall a <- Handle(u, servers, input).actions :: Safe(a, u, servers, input)
  {
    match u.mode
    case Main => MainSafe(u, servers, input);
    case ServerMenu => MenuSafe(u, servers, input);
    case ServerKill => KillSafe(u, servers, input);
    case ServerFiles =>
      FilesKeepInv(u, servers, input);
      FilesSafe(u, servers, input);
    case FileEditor => EditorSafe(u, servers, input);
    case FileOperations =>
    case _ =>
      PromptsSafe(u, servers, input);
      PanelSafe(u, servers, input);
  }

  /** The column is too far right for the key. */
  predicate ColumnThrows(s: State, key: int)
    requires InBounds(s)
  {
    var beyond := s.col - |s.lines[s.row]|;
    ((key == ENTER || IsPrint(key)) && beyond > 0) || (IsBackspace(key) && beyond > 1)
  }

  /** Some server's reply is not an array of well-typed rows. */
  predicate BadReply(replies: seq<C.Reply>) {
    exists i :: 0 <= i < |replies| && !replies[i].Entries?
  }

  /** A key throws exactly when it asks for a refresh that meets a bad reply, or the editor's column is too far right. */
  lemma HandleThrowsIff(u: UiState, servers: seq<C.Server>, input: Input)
    requires Inv(u, servers) && OnePerServer(input, servers)
    ensures Handle(u, servers, input).threw <==>
            || (AsksRefresh(u.mode, input.key) && BadReply(input.replies))
            || (u.mode == FileEditor && ColumnThrows(u.editor, input.key))
  {
    if u.mode == FileEditor {
      Editor.ThrowsIff(u.editor, input.key, input.height);
    }
  }

  // ---------------------------------------------------------------- every run

  /** The program before its first round. */
  function InitState(servers: seq<C.Server>): UiState {
    StartState([], seq(|servers|, _ => false))
  }

  function StartState(tasks: seq<C.Task>, selected: seq<bool>): UiState {
    UiState(Main, 0, 0, 0, "", [], "", "", State([], 0, 0, 0), "", false, tasks, selected)
  }

  /** The loop goes on, was left with ESC, or was ended by an exception, and the program with it. */
  datatype Status = Going | Left | Crashed

  /** One round of UI::run: the poll, then the key if there is one. */
  function Iterate(u: UiState, servers: seq<C.Server>, input: Input): (UiState, Status)
    requires Inv(u, servers) && OnePerServer(input, servers)
  {
    var (tasks, complete) := C.RefreshedAll(u.tasks, servers, input.poll);
    var v := u.(tasks := tasks);
    if !complete then (v, Crashed)
    else if input.key == ERR then (v, Going)
    else if input.key == ESC && u.mode == Main then (v, Left)
    else
      var h := Handle(v, servers, input);
      (h.state, if h.threw then Crashed else Going)
  }

  /** What that round asks for beyond its poll. */
  function Caused(u: UiState, servers: seq<C.Server>, input: Input): seq<Action>
    requires Inv(u, servers) && OnePerServer(input, servers)
  {
    var (tasks, complete) := C.RefreshedAll(u.tasks, servers, input.poll);
    if !complete || input.key == ERR || (input.key == ESC && u.mode == Main) then []
    else Handle(u.(tasks := tasks), servers, input).actions
  }

  predicate AllOnePerServer(inputs: seq<Input>, servers: seq<C.Server>) {
    forall i :: 0 <= i < |inputs| ==> OnePerServer(inputs[i], servers)
  }

  lemma IterateKeepsInv(u: UiState, servers: seq<C.Server>, input: Input)
    requires Inv(u, servers) && OnePerServer(input, servers)
    ensures Inv(Iterate(u, servers, input).0, servers)
  {
    var v := u.(tasks := C.RefreshedAll(u.tasks, servers, input.poll).0);
    HandleSafe(v, servers, input);
  }

  /** UI::run: rounds until one of them ends the loop. */
  function Reach(u: UiState, servers: seq<C.Server>, inputs: seq<Input>): (r: (UiState, Status))
    requires Inv(u, servers) && AllOnePerServer(inputs, servers)
    ensures Inv(r.0, servers)
    decreases |inputs|
  {
    if inputs == [] then (u, Going) else
    var (v, status) := Iterate(u, servers, inputs[0]);
    IterateKeepsInv(u, servers, inputs[0]);
    if status == Going then Reach(v, servers, inputs[1..]) else (v, status)
  }

  /** A round that an exception ends: a bad reply to the poll, or a key that throws. */
  predicate Breaks(u: UiState, input: Input)
    requires u.mode == FileEditor ==> InBounds(u.editor)
  {
    || BadReply(input.poll)
    || (AsksRefresh(u.mode, input.key) && BadReply(input.replies))
    || (u.mode == FileEditor && ColumnThrows(u.editor, input.key))
  }

  lemma IterateCrashesIff(u: UiState, servers: seq<C.Server>, input: Input)
    requires Inv(u, servers) && OnePerServer(input, servers)
    ensures Iterate(u, servers, input).1 == Crashed <==> Breaks(u, input)
  {
    HandleThrowsIff(u.(tasks := C.RefreshedAll(u.tasks, servers, input.poll).0), servers, input);
  }

  /** Round k ends the program. */
  predicate BreaksAt(u: UiState, servers: seq<C.Server>, inputs: seq<Input>, k: nat)
    requires Inv(u, servers) && AllOnePerServer(inputs, servers) && k < |inputs|
  {
    var (v, status) := Reach(u, servers, inputs[..k]);
    status == Going && Breaks(v, inputs[k])
  }

  /** The program ends in an exception exactly when one of its rounds meets a bad reply or a column too far right. */
  lemma {:induction false} RunCrashesIff(u: UiState, servers: seq<C.Server>, inputs: seq<Input>)
    requires Inv(u, servers) && AllOnePerServer(inputs, servers)
    ensures Reach(u, servers, inputs).1 == Crashed <==> exists k: nat :: k < |inputs| && BreaksAt(u, servers, inputs, k)
    decreases |inputs|
  {
    if inputs != [] {
      var (v, status) := Iterate(u, servers, inputs[0]);
      IterateKeepsInv(u, servers, inputs[0]);
      IterateCrashesIff(u, servers, inputs[0]);
      assert Reach(u, servers, inputs[..0]) == (u, Going);
      assert BreaksAt(u, servers, inputs, 0) <==> status == Crashed;
      forall k: nat | k < |inputs| - 1
        ensures BreaksAt(u, servers, inputs, k + 1) <==> status == Going && BreaksAt(v, servers, inputs[1..], k)
      {
        assert inputs[..k + 1][1..] == inputs[1..][..k];
      }
      if status == Going {
        RunCrashesIff(v, servers, inputs[1..]);
      }
      if k: nat :| k < |inputs| && BreaksAt(u, servers, inputs, k) {
        if k > 0 {
          assert BreaksAt(v, servers, inputs[1..], k - 1);
        }
      }
      if status == Going && Reach(v, servers, inputs[1..]).1 == Crashed {
        var k: nat :| k < |inputs| - 1 && BreaksAt(v, servers, inputs[1..], k);
        assert BreaksAt(u, servers, inputs, k + 1);
      }
    }
  }

  // ------------------------------------------------------ copy, cut and paste

  /** The key of this round is handled by the file list. */
  predicate FilesKey(u: UiState, input: Input) {
    u.mode == ServerFiles && !BadReply(input.poll) && input.key != ERR
  }

  /** C or X, in either case, with the cursor on a file. */
  predicate MarksFile(u: UiState, input: Input, upper: char) {
    && FilesKey(u, input) && (input.key == upper as int || input.key == upper as int + 32)
    && 0 <= u.selectedFile < |input.files|
  }

  predicate PressesV(u: UiState, input: Input) {
    FilesKey(u, input) && (input.key == 'V' as int || input.key == 'v' as int)
  }

  lemma KeepsClipboard(u: UiState, servers: seq<C.Server>, input: Input)
    requires Inv(u, servers) && OnePerServer(input, servers) && u.mode != ServerFiles
    ensures var v := Handle(u, servers, input).state;
            v.clipboardFile == u.clipboardFile && v.clipboardIsCut == u.clipboardIsCut
  {
  }

  lemma FilesClipboard(u: UiState, servers: seq<C.Server>, input: Input)
    requires Inv(u, servers) && OnePerServer(input, servers) && FilesKey(u, input)
    ensures var v := Handle(u, servers, input).state;
            && v.clipboardFile == (if MarksFile(u, input, 'C') || MarksFile(u, input, 'X') then input.files[u.selectedFile].name
                                   else if PressesV(u, input) && u.clipboardIsCut then "" else u.clipboardFile)
            && (v.clipboardIsCut <==> MarksFile(u, input, 'X') || (u.clipboardIsCut && !MarksFile(u, input, 'C')))
  {
  }

  /** One round: only C and X on a file mark one, and only V after a cut drops it. */
  lemma RoundClipboard(u: UiState, servers: seq<C.Server>, input: Input)
    requires Inv(u, servers) && OnePerServer(input, servers)
    ensures var v := Iterate(u, servers, input).0;
            && v.clipboardFile == (if MarksFile(u, input, 'C') || MarksFile(u, input, 'X') then input.files[u.selectedFile].name
                                   else if PressesV(u, input) && u.clipboardIsCut then "" else u.clipboardFile)
            && (v.clipboardIsCut <==> MarksFile(u, input, 'X') || (u.clipboardIsCut && !MarksFile(u, input, 'C')))
  {
    var v := u.(tasks := C.RefreshedAll(u.tasks, servers, input.poll).0);
    if FilesKey(u, input) {
      FilesClipboard(v, servers, input);
    } else if u.mode != ServerFiles {
      KeepsClipboard(v, servers, input);
    }
  }

  /** A run, and one more round if it still goes on. */
  lemma {:induction false} ReachSnoc(u: UiState, servers: seq<C.Server>, inputs: seq<Input>, last: Input)
    requires Inv(u, servers) && AllOnePerServer(inputs, servers) && OnePerServer(last, servers)
    ensures AllOnePerServer(inputs + [last], servers)
    ensures var (v, status) := Reach(u, servers, inputs);
            Reach(u, servers, inputs + [last]) == if status == Going then Iterate(v, servers, last) else (v, status)
    decreases |inputs|
  {
    if inputs == [] {
      assert [last][1..] == [] && [] + [last] == [last];
      IterateKeepsInv(u, servers, last);
    } else {
      assert (inputs + [last])[1..] == inputs[1..] + [last];
      IterateKeepsInv(u, servers, inputs[0]);
      var (v, status) := Iterate(u, servers, inputs[0]);
      if status == Going {
        ReachSnoc(v, servers, inputs[1..], last);
      }
    }
  }

  /** Round j of a run marks a file, to be copied (C) or cut (X). */
  predicate MarkAt(u: UiState, servers: seq<C.Server>, inputs: seq<Input>, j: nat, upper: char)
    requires Inv(u, servers) && AllOnePerServer(inputs, servers) && j < |inputs|
  {
    var (v, status) := Reach(u, servers, inputs[..j]);
    status == Going && MarksFile(v, inputs[j], upper)
  }

  /** The file it marks. */
  function NameAt(u: UiState, servers: seq<C.Server>, inputs: seq<Input>, j: nat): string
    requires Inv(u, servers) && AllOnePerServer(inputs, servers) && j < |inputs|
    requires MarkAt(u, servers, inputs, j, 'C') || MarkAt(u, servers, inputs, j, 'X')
  {
    inputs[j].files[Reach(u, servers, inputs[..j]).0.selectedFile].name
  }

  predicate VAt(u: UiState, servers: seq<C.Server>, inputs: seq<Input>, j: nat)
    requires Inv(u, servers) && AllOnePerServer(inputs, servers) && j < |inputs|
  {
    var (v, status) := Reach(u, servers, inputs[..j]);
    status == Going && PressesV(v, inputs[j])
  }

  /** No round from number `from` on marks a file. */
  predicate NoMarkFrom(u: UiState, servers: seq<C.Server>, inputs: seq<Input>, from: nat)
    requires Inv(u, servers) && AllOnePerServer(inputs, servers)
  {
    forall k :: from <= k < |inputs| ==> !MarkAt(u, servers, inputs, k, 'C') && !MarkAt(u, servers, inputs, k, 'X')
  }

  predicate NoVFrom(u: UiState, servers: seq<C.Server>, inputs: seq<Input>, from: nat)
    requires Inv(u, servers) && AllOnePerServer(inputs, servers)
  {
    forall k :: from <= k < |inputs| ==> !VAt(u, servers, inputs, k)
  }

  /** Without its last round, a run has the same rounds. */
  lemma SameRounds(u: UiState, servers: seq<C.Server>, inputs: seq<Input>, last: Input, k: nat)
    requires Inv(u, servers) && AllOnePerServer(inputs + [last], servers) && k < |inputs|
    ensures AllOnePerServer(inputs, servers)
    ensures MarkAt(u, servers, inputs + [last], k, 'C') == MarkAt(u, servers, inputs, k, 'C')
    ensures MarkAt(u, servers, inputs + [last], k, 'X') == MarkAt(u, servers, inputs, k, 'X')
    ensures VAt(u, servers, inputs + [last], k) == VAt(u, servers, inputs, k)
    ensures MarkAt(u, servers, inputs, k, 'C') || MarkAt(u, servers, inputs, k, 'X') ==>
              NameAt(u, servers, inputs + [last], k) == NameAt(u, servers, inputs, k)
  {
    forall i | 0 <= i < |inputs|
      ensures OnePerServer(inputs[i], servers)
    {
      assert (inputs + [last])[i] == inputs[i];
    }
    assert (inputs + [last])[..k] == inputs[..k];
  }

  lemma LastRound(u: UiState, servers: seq<C.Server>, inputs: seq<Input>, last: Input)
    requires Inv(u, servers) && AllOnePerServer(inputs, servers) && AllOnePerServer(inputs + [last], servers)
    ensures var (v, status) := Reach(u, servers, inputs);
            && MarkAt(u, servers, inputs + [last], |inputs|, 'C') == (status == Going && MarksFile(v, last, 'C'))
            && MarkAt(u, servers, inputs + [last], |inputs|, 'X') == (status == Going && MarksFile(v, last, 'X'))
            && OnePerServer(last, servers)
            && VAt(u, servers, inputs + [last], |inputs|) == (status == Going && PressesV(v, last))
  {
    assert (inputs + [last])[..|inputs|] == inputs && (inputs + [last])[|inputs|] == last;
  }

  /** What a run's latest mark has left on the clipboard: a cut file is gone from it after a paste. */
  ghost predicate ClipboardFrom(u: UiState, servers: seq<C.Server>, inputs: seq<Input>, j: nat)
    requires Inv(u, servers) && AllOnePerServer(inputs, servers) && j < |inputs|
    requires MarkAt(u, servers, inputs, j, 'C') || MarkAt(u, servers, inputs, j, 'X')
  {
    var v := Reach(u, servers, inputs).0;
    && v.clipboardIsCut == MarkAt(u, servers, inputs, j, 'X')
    && v.clipboardFile == if v.clipboardIsCut && !NoVFrom(u, servers, inputs, j + 1) then ""
                          else NameAt(u, servers, inputs, j)
  }

  lemma MarkedLast(u: UiState, servers: seq<C.Server>, inputs: seq<Input>, last: Input)
    requires Inv(u, servers) && AllOnePerServer(inputs, servers) && AllOnePerServer(inputs + [last], servers)
    requires MarkAt(u, servers, inputs + [last], |inputs|, 'C') || MarkAt(u, servers, inputs + [last], |inputs|, 'X')
    ensures ClipboardFrom(u, servers, inputs + [last], |inputs|)
  {
    assert (inputs + [last])[..|inputs|] == inputs;
    LastRound(u, servers, inputs, last);
    ReachSnoc(u, servers, inputs, last);
    RoundClipboard(Reach(u, servers, inputs).0, servers, last);
  }

  lemma MarkedBefore(u: UiState, servers: seq<C.Server>, inputs: seq<Input>, last: Input, j: nat)
    requires Inv(u, servers) && AllOnePerServer(inputs, servers) && AllOnePerServer(inputs + [last], servers)
    requires j < |inputs| && (MarkAt(u, servers, inputs, j, 'C') || MarkAt(u, servers, inputs, j, 'X'))
    requires ClipboardFrom(u, servers, inputs, j)
    requires NoMarkFrom(u, servers, inputs + [last], |inputs|)
    ensures MarkAt(u, servers, inputs + [last], j, 'C') || MarkAt(u, servers, inputs + [last], j, 'X')
    ensures ClipboardFrom(u, servers, inputs + [last], j)
  {
    var all := inputs + [last];
    SameRounds(u, servers, inputs, last, j);
    LastRound(u, servers, inputs, last);
    ReachSnoc(u, servers, inputs, last);
    var (v, status) := Reach(u, servers, inputs);
    RoundClipboard(v, servers, last);
    NoVSnoc(u, servers, inputs, last, j + 1);
  }

  lemma NoVSnoc(u: UiState, servers: seq<C.Server>, inputs: seq<Input>, last: Input, from: nat)
    requires Inv(u, servers) && AllOnePerServer(inputs, servers) && AllOnePerServer(inputs + [last], servers)
    requires from <= |inputs|
    ensures NoVFrom(u, servers, inputs + [last], from)
       <==> NoVFrom(u, servers, inputs, from) && !VAt(u, servers, inputs + [last], |inputs|)
  {
    forall k: nat | k < |inputs|
      ensures VAt(u, servers, inputs + [last], k) == VAt(u, servers, inputs, k)
    {
      SameRounds(u, servers, inputs, last, k);
    }
  }

  lemma NoMarkSnoc(u: UiState, servers: seq<C.Server>, inputs: seq<Input>, last: Input, from: nat)
    requires Inv(u, servers) && AllOnePerServer(inputs, servers) && AllOnePerServer(inputs + [last], servers)
    requires from <= |inputs|
    ensures NoMarkFrom(u, servers, inputs + [last], from)
       <==> && NoMarkFrom(u, servers, inputs, from)
            && !MarkAt(u, servers, inputs + [last], |inputs|, 'C') && !MarkAt(u, servers, inputs + [last], |inputs|, 'X')
  {
    forall k: nat | k < |inputs|
      ensures MarkAt(u, servers, inputs + [last], k, 'C') == MarkAt(u, servers, inputs, k, 'C')
      ensures MarkAt(u, servers, inputs + [last], k, 'X') == MarkAt(u, servers, inputs, k, 'X')
    {
      SameRounds(u, servers, inputs, last, k);
    }
  }

  /** In every run the clipboard is what its latest mark left there. */
  lemma {:induction false} ClipboardIsLatestMark(u: UiState, servers: seq<C.Server>, inputs: seq<Input>, j: nat)
    requires Inv(u, servers) && AllOnePerServer(inputs, servers) && j < |inputs|
    requires MarkAt(u, servers, inputs, j, 'C') || MarkAt(u, servers, inputs, j, 'X')
    requires NoMarkFrom(u, servers, inputs, j + 1)
    ensures ClipboardFrom(u, servers, inputs, j)
    decreases |inputs|
  {
    var before, last := inputs[..|inputs| - 1], inputs[|inputs| - 1];
    assert inputs == before + [last];
    if j == |before| {
      MarkedLast(u, servers, before, last);
    } else {
      SameRounds(u, servers, before, last, j);
      NoMarkSnoc(u, servers, before, last, j + 1);
      ClipboardIsLatestMark(u, servers, before, j);
      MarkedBefore(u, servers, before, last, j);
    }
  }

  lemma {:induction false} ClipboardUnmarked(u: UiState, servers: seq<C.Server>, inputs: seq<Input>)
    requires Inv(u, servers) && AllOnePerServer(inputs, servers) && u.clipboardFile == ""
    requires NoMarkFrom(u, servers, inputs, 0)
    ensures Reach(u, servers, inputs).0.clipboardFile == ""
    decreases |inputs|
  {
    if inputs != [] {
      var before, last := inputs[..|inputs| - 1], inputs[|inputs| - 1];
      assert inputs == before + [last];
      NoMarkSnoc(u, servers, before, last, 0);
      ClipboardUnmarked(u, servers, before);
      LastRound(u, servers, before, last);
      ReachSnoc(u, servers, before, last);
      RoundClipboard(Reach(u, servers, before).0, servers, last);
    }
  }

  /** Either no round from `from` on marks a file, or one of them is the latest that does. */
  lemma {:induction false} LatestMark(u: UiState, servers: seq<C.Server>, inputs: seq<Input>, from: nat)
    returns (j: nat)
    requires Inv(u, servers) && AllOnePerServer(inputs, servers) && from <= |inputs|
    requires !NoMarkFrom(u, servers, inputs, from)
    ensures from <= j < |inputs| && NoMarkFrom(u, servers, inputs, j + 1)
    ensures MarkAt(u, servers, inputs, j, 'C') || MarkAt(u, servers, inputs, j, 'X')
    decreases |inputs| - from
  {
    if NoMarkFrom(u, servers, inputs, from + 1) {
      j := from;
    } else {
      j := LatestMark(u, servers, inputs, from + 1);
    }
  }

  /** V in the file list: read the clipboard's file, write its content as a copy, then delete it after a cut. */
  lemma PasteOf(u: UiState, servers: seq<C.Server>, next: Input)
    requires Inv(u, servers) && OnePerServer(next, servers) && PressesV(u, next)
    ensures var name, i := u.clipboardFile, u.selectedServer;
            Caused(u, servers, next)
            == if name == "" then []
               else if u.clipboardIsCut then
                 [ReadFile(i, name), WriteFile(i, "copy_of_" + name, next.content), DeleteFile(i, name)]
               else [ReadFile(i, name), WriteFile(i, "copy_of_" + name, next.content)]
  {
  }

  /**
   Copy, cut and paste over whole runs of the program: the actions of V follow the
   latest C or X that was handled in the file list with the cursor on a file. After C
   every V reads that file and writes what was read as a copy; after X the first V
   deletes the file behind that, and the next ones do nothing.
   */
  lemma PasteFollowsMark(servers: seq<C.Server>, inputs: seq<Input>, next: Input, j: nat)
    requires servers != [] && AllOnePerServer(inputs, servers) && OnePerServer(next, servers) && j < |inputs|
    requires Inv(InitState(servers), servers)
    requires Reach(InitState(servers), servers, inputs).1 == Going
    requires PressesV(Reach(InitState(servers), servers, inputs).0, next)
    requires MarkAt(InitState(servers), servers, inputs, j, 'C') || MarkAt(InitState(servers), servers, inputs, j, 'X')
    requires NoMarkFrom(InitState(servers), servers, inputs, j + 1)
    ensures var u0 := InitState(servers);
            var v := Reach(u0, servers, inputs).0;
            var name, i := NameAt(u0, servers, inputs, j), v.selectedServer;
            var pasted := [ReadFile(i, name), WriteFile(i, "copy_of_" + name, next.content)];
            && (name == "" ==> Caused(v, servers, next) == [])
            && (name != "" && MarkAt(u0, servers, inputs, j, 'C') ==> Caused(v, servers, next) == pasted)
            && (name != "" && MarkAt(u0, servers, inputs, j, 'X') ==>
                  Caused(v, servers, next)
                  == if NoVFrom(u0, servers, inputs, j + 1) then pasted + [DeleteFile(i, name)] else [])
  {
    ClipboardIsLatestMark(InitState(servers), servers, inputs, j);
    PasteOf(Reach(InitState(servers), servers, inputs).0, servers, next);
  }

  /** V deletes exactly when the latest mark was an X on a named file and this is the first V since; it deletes that file. */
  lemma PasteDeletesIff(servers: seq<C.Server>, inputs: seq<Input>, next: Input, i: nat, name: string)
    requires servers != [] && AllOnePerServer(inputs, servers) && OnePerServer(next, servers)
    requires Inv(InitState(servers), servers)
    requires Reach(InitState(servers), servers, inputs).1 == Going
    requires PressesV(Reach(InitState(servers), servers, inputs).0, next)
    ensures var u0 := InitState(servers);
            var v := Reach(u0, servers, inputs).0;
            (DeleteFile(i, name) in Caused(v, servers, next)
             <==> && i == v.selectedServer && name != ""
                  && exists j: nat :: j < |inputs| && MarkAt(u0, servers, inputs, j, 'X') && NameAt(u0, servers, inputs, j) == name
                                   && NoMarkFrom(u0, servers, inputs, j + 1) && NoVFrom(u0, servers, inputs, j + 1))
  {
    var u0 := InitState(servers);
    var v := Reach(u0, servers, inputs).0;
    PasteOf(v, servers, next);
    if NoMarkFrom(u0, servers, inputs, 0) {
      ClipboardUnmarked(u0, servers, inputs);
    } else {
      var j := LatestMark(u0, servers, inputs, 0);
      PasteFollowsMark(servers, inputs, next, j);
      forall k: nat | k < |inputs| && MarkAt(u0, servers, inputs, k, 'X') && NoMarkFrom(u0, servers, inputs, k + 1)
        ensures k == j
      {
        OneLatest(u0, servers, inputs, j, k);
      }
    }
  }

  lemma OneLatest(u: UiState, servers: seq<C.Server>, inputs: seq<Input>, j: nat, k: nat)
    requires Inv(u, servers) && AllOnePerServer(inputs, servers) && j < |inputs| && k < |inputs|
    requires MarkAt(u, servers, inputs, j, 'C') || MarkAt(u, servers, inputs, j, 'X')
    requires MarkAt(u, servers, inputs, k, 'C') || MarkAt(u, servers, inputs, k, 'X')
    requires NoMarkFrom(u, servers, inputs, j + 1) && NoMarkFrom(u, servers, inputs, k + 1)
    ensures j == k
  {
  }

  lemma FilesKeepTasks(u: UiState, servers: seq<C.Server>, input: Input)
    requires Inv(u, servers)
    ensures HandleFiles(u, input).state.tasks == u.tasks
    ensures forall a <- HandleFiles(u, input).actions :: !a.Kill?
  {
  }

  /** A client that has no tasks gets none, and asks to kill none. */
  lemma HandleNoTasks(u: UiState, servers: seq<C.Server>, input: Input)
    requires Inv(u, servers) && OnePerServer(input, servers) && u.tasks == []
    ensures Handle(u, servers, input).state.tasks == []
    ensures forall a <- Handle(u, servers, input).actions :: !a.Kill?
  {
    match u.mode
    case ServerFiles => FilesKeepTasks(u, servers, input);
    case ServerTerminal => PromptsSafe(u, servers, input);
    case MultiServerExec => PromptsSafe(u, servers, input);
    case _ =>
  }

  lemma IterateNoTasks(u: UiState, servers: seq<C.Server>, input: Input)
    requires Inv(u, servers) && OnePerServer(input, servers) && u.tasks == []
    ensures Iterate(u, servers, input).0.tasks == []
  {
    var v := u.(tasks := C.RefreshedAll(u.tasks, servers, input.poll).0);
    assert v.tasks == [];
    HandleNoTasks(v, servers, input);
  }

  lemma {:induction false} ReachNoTasks(u: UiState, servers: seq<C.Server>, inputs: seq<Input>)
    requires Inv(u, servers) && AllOnePerServer(inputs, servers) && u.tasks == []
    ensures Reach(u, servers, inputs).0.tasks == []
    decreases |inputs|
  {
    if inputs != [] {
      IterateNoTasks(u, servers, inputs[0]);
      IterateKeepsInv(u, servers, inputs[0]);
      var (v, status) := Iterate(u, servers, inputs[0]);
      if status == Going {
        ReachNoTasks(v, servers, inputs[1..]);
      }
    }
  }

  lemma InitInv(servers: seq<C.Server>)
    requires servers != []
    ensures Inv(InitState(servers), servers)
  {
  }

  /** The next key causes safe actions only, and among them no command, query or kill. */
  ghost predicate KeySafe(u: UiState, servers: seq<C.Server>, next: Input)
    requires Inv(u, servers) && OnePerServer(next, servers)
  {
    forall a <- Handle(u, servers, next).actions ::
      Safe(a, u, servers, next) && !a.Exec? && !a.Ask? && !a.Kill?
  }

  /**
   In every reachable state, whatever the servers and the file system answer, the
   next key uses indices in range and causes only safe actions; above all, no key
   sequence ever makes the UI send a command or a query, so the client never has
   a task, nor anything to kill.
   */
  lemma ReachableSafe(servers: seq<C.Server>, inputs: seq<Input>, next: Input)
    requires servers != [] && AllOnePerServer(inputs, servers) && OnePerServer(next, servers)
    ensures Inv(InitState(servers), servers)
    ensures var u := Reach(InitState(servers), servers, inputs).0;
            Inv(u, servers) && u.tasks == [] && KeySafe(u, servers, next)
  {
    InitInv(servers);
    ReachNoTasks(InitState(servers), servers, inputs);
    var u := Reach(InitState(servers), servers, inputs).0;
    HandleSafe(u, servers, next);
    HandleNoTasks(u, servers, next);
  }

  /** Editing from a file's content on: the editor ends valid, with what the flat editor makes of the text. */
  lemma EditedText(content: string, scroll: int, keys: seq<Key>)
    requires 0 <= scroll && ArrowsLandInside(State(OpenLines(content), 0, 0, scroll), keys)
    requires Editor.Run(State(OpenLines(content), 0, 0, scroll), keys).1 == Continue
    ensures var s := Editor.Run(State(OpenLines(content), 0, 0, scroll), keys).0;
            && InBounds(s) && NewlineFree(s.lines)
            && Terminated(s.lines) == FlatRun(Flat(Joined(OpenLines(content)), 0), keys).text + "\n"
  {
    var lines := OpenLines(content);
    var start := State(lines, 0, 0, scroll);
    OpenNewlineFree(content);
    RunRefinesFlat(start, keys);
    assert lines[..0] == [];
    assert Flatten(start) == Flat(Joined(lines), 0);
    SavedIsJoined(Editor.Run(start, keys).0.lines);
  }

  lemma SavesText(u: UiState, servers: seq<C.Server>, save: Input)
    requires Inv(u, servers) && OnePerServer(save, servers) && u.mode == FileEditor && save.key == CTRL_S
    ensures Handle(u, servers, save)
         == Handled(u.(mode := ServerFiles), [WriteFile(u.selectedServer, u.editFile, Terminated(u.editor.lines))], false)
  {
  }

  lemma OpensFile(u: UiState, servers: seq<C.Server>, open: Input)
    requires Inv(u, servers) && OnePerServer(open, servers) && u.mode == ServerFiles
    requires Letter(open.key, 'e') && u.selectedFile < |open.files| && !open.files[u.selectedFile].isDir
    ensures Handle(u, servers, open).state == EditorOn(u, open.files[u.selectedFile].name, OpenLines(open.content))
  {
  }

  /**
   Editing end to end: a session that opens a file, edits with arrows landing
   inside and saves writes what the flat editor makes of the file's text.
   */
  lemma SessionWritesFlatText(u: UiState, servers: seq<C.Server>, open: Input, keys: seq<Key>, save: Input)
    requires Inv(u, servers) && OnePerServer(open, servers) && OnePerServer(save, servers) && u.mode == ServerFiles
    requires Letter(open.key, 'e') && u.selectedFile < |open.files| && !open.files[u.selectedFile].isDir
    requires save.key == CTRL_S
    requires ArrowsLandInside(State(OpenLines(open.content), 0, 0, u.editor.scroll), keys)
    requires Editor.Run(State(OpenLines(open.content), 0, 0, u.editor.scroll), keys).1 == Continue
    ensures var v := Handle(u, servers, open).state;
            var name := open.files[u.selectedFile].name;
            var edited := v.(editor := Editor.Run(v.editor, keys).0);
            && v.mode == FileEditor && v.editor == State(OpenLines(open.content), 0, 0, u.editor.scroll)
            && Inv(edited, servers)
            && Handle(edited, servers, save).actions
               == [WriteFile(u.selectedServer, name, FlatRun(Flat(Joined(OpenLines(open.content)), 0), keys).text + "\n")]
            && Handle(edited, servers, save).state == edited.(mode := ServerFiles)
            && Joined(OpenLines(open.content)) + "\n" == WithFinalNewline(open.content)
  {
    OpensFile(u, servers, open);
    EditedText(open.content, u.editor.scroll, keys);
    var v := Handle(u, servers, open).state;
    SavesText(v.(editor := Editor.Run(v.editor, keys).0), servers, save);
    SavedIsJoined(OpenLines(open.content));
    SavedOfOpen(open.content);
  }

  /** The task list after the polls of some rounds. */
  function Polled(tasks: seq<C.Task>, servers: seq<C.Server>, inputs: seq<Input>): seq<C.Task>
    requires AllOnePerServer(inputs, servers)
    decreases |inputs|
  {
    if inputs == [] then tasks
    else Polled(C.RefreshedAll(tasks, servers, inputs[0].poll).0, servers, inputs[1..])
  }

  /** One round in the editor whose poll is answered: the key is the editor's. */
  lemma EditorRound(u: UiState, servers: seq<C.Server>, input: Input)
    requires Inv(u, servers) && OnePerServer(input, servers) && u.mode == FileEditor && !BadReply(input.poll)
    requires Step(u.editor, input.key, input.height).1 == Continue
    ensures Iterate(u, servers, input)
         == (u.(editor := Step(u.editor, input.key, input.height).0,
                tasks := C.RefreshedAll(u.tasks, servers, input.poll).0), Going)
  {
  }

  /** The keys of a session, one by one, reach the UI as the editor's run, as long as every poll is answered. */
  lemma {:induction false} SessionIsEditorRun(u: UiState, servers: seq<C.Server>, inputs: seq<Input>, keys: seq<Key>)
    requires Inv(u, servers) && AllOnePerServer(inputs, servers) && u.mode == FileEditor && |keys| == |inputs|
    requires forall i :: 0 <= i < |keys| ==> keys[i] == Key(inputs[i].key, inputs[i].height)
    requires forall i :: 0 <= i < |inputs| ==> !BadReply(inputs[i].poll)
    requires Editor.Run(u.editor, keys).1 == Continue
    ensures Reach(u, servers, inputs)
         == (u.(editor := Editor.Run(u.editor, keys).0, tasks := Polled(u.tasks, servers, inputs)), Going)
    decreases |inputs|
  {
    if inputs != [] {
      EditorRound(u, servers, inputs[0]);
      IterateKeepsInv(u, servers, inputs[0]);
      SessionIsEditorRun(Iterate(u, servers, inputs[0]).0, servers, inputs[1..], keys[1..]);
    }
  }

  lemma ExecGrows(selected: seq<bool>, servers: seq<C.Server>, command: string, replies: seq<Option<string>>, i: nat)
    requires i < |selected| <= |servers| == |replies|
    requires ExecOnSelected(selected[..i], servers, command, replies).2
    ensures var (actions, tasks, _) := ExecOnSelected(selected[..i], servers, command, replies);
            ExecOnSelected(selected[..i + 1], servers, command, replies)
            == if !selected[i] then (actions, tasks, true)
               else if replies[i].None? then (actions + [Exec(i, command)], tasks, false)
               else (actions + [Exec(i, command)],
                     tasks + [C.Task(replies[i].value, servers[i].name, command, C.Running)], true)
  {
    assert selected[..i + 1][..i] == selected[..i];
  }

  lemma {:induction false} ExecStops(selected: seq<bool>, servers: seq<C.Server>, command: string,
                                     replies: seq<Option<string>>, n: nat)
    requires n <= |selected| <= |servers| == |replies|
    requires !ExecOnSelected(selected[..n], servers, command, replies).2
    ensures ExecOnSelected(selected, servers, command, replies) == ExecOnSelected(selected[..n], servers, command, replies)
    decreases |selected|
  {
    if n == |selected| {
      assert selected[..n] == selected;
    } else {
      var last := |selected| - 1;
      assert selected[..last][..n] == selected[..n];
      ExecStops(selected[..last], servers, command, replies, n);
    }
  }

  lemma LoadStep(lines: seq<string>, rest: string, line: string, next: string)
    requires rest != "" && (line, next) == GetLine(rest)
    ensures lines + SplitLines(rest) == lines + [line] + SplitLines(next)
  {
    SplitStep(rest);
  }

  lemma LoadEnd(lines: seq<string>, content: string)
    requires lines + SplitLines("") == SplitLines(content)
    ensures OpenLines(content) == if lines == [] then [""] else lines
  {
    assert lines + [] == lines;
    if content != "" {
      SplitStep(content);
    }
  }

  // ------------------------------------------------- the keys, by their codes

  /** The screens of the menu, in the order of their keys: 1 to 9, then A to F. */
  const SCREENS := [ServerTerminal, ServerLogs, ServerKill, ServerStats, ServerFiles, MultiServerExec, AiAssistant,
                    NetworkTopology, SecurityScanner, PerformanceAnalytics, ClusterManager, BackupRestore,
                    MonitoringDashboard, ScriptLibrary, AlertCenter]

  /** The menu's digits and letters, of either case, open the screens in order; ESC goes back; no other key leaves it. */
  lemma MenuOpens(u: UiState, servers: seq<C.Server>, input: Input)
    requires Inv(u, servers) && OnePerServer(input, servers) && u.mode == ServerMenu
    ensures var key, h := input.key, Handle(u, servers, input);
            && h.state.mode == (if 49 <= key <= 57 then SCREENS[key - 49]
                                else if 65 <= key <= 70 then SCREENS[key - 65 + 9]
                                else if 97 <= key <= 102 then SCREENS[key - 97 + 9]
                                else if key == 27 then Main else ServerMenu)
            && h == Handled(u.(mode := h.state.mode, selectedFile := if key == 53 then 0 else u.selectedFile), [], false)
  {
    var key := input.key;
    if 49 <= key <= 57 {
      assert MenuTarget(key) == SCREENS[key - 49];
    } else if 65 <= key <= 70 {
      assert MenuTarget(key) == SCREENS[key - 65 + 9];
    } else if 97 <= key <= 102 {
      assert MenuTarget(key) == SCREENS[key - 97 + 9];
    }
  }

  /** The program is left with ESC on the main screen, behind an answered poll, and in no other way. */
  lemma LeftIff(u: UiState, servers: seq<C.Server>, input: Input)
    requires Inv(u, servers) && OnePerServer(input, servers)
    ensures Iterate(u, servers, input).1 == Left <==> u.mode == Main && input.key == 27 && !BadReply(input.poll)
  {
  }

  /** ESC goes back one screen and does nothing else. */
  lemma EscGoesBack(u: UiState, servers: seq<C.Server>, input: Input)
    requires Inv(u, servers) && OnePerServer(input, servers) && input.key == 27
    ensures var h := Handle(u, servers, input);
            && h.actions == [] && !h.threw
            && h.state.mode == (if u.mode in {Main, ServerMenu, MultiServerExec} then Main
                                else if u.mode == FileEditor then ServerFiles else ServerMenu)
            && h.state == u.(mode := h.state.mode, selectedTask := if u.mode == ServerKill then 0 else u.selectedTask)
  {
  }

  /** The main screen: the arrows stay in the list, the space bar flips the flag under the cursor, Enter opens the menu. */
  lemma MainKeys(u: UiState, servers: seq<C.Server>, input: Input)
    requires Inv(u, servers) && OnePerServer(input, servers) && u.mode == Main
    ensures var h, i := Handle(u, servers, input), u.selectedServer;
            && (input.key == 259 ==> h == Handled(u.(selectedServer := if i == 0 then 0 else i - 1), [], false))
            && (input.key == 258 ==> h == Handled(u.(selectedServer := if i + 1 == |servers| then i else i + 1), [], false))
            && (input.key == 10 ==> h == Handled(u.(mode := ServerMenu), [], false))
            && (input.key == 32 ==> && h == Handled(u.(selected := h.state.selected), [Toggle(i)], false)
                                    && h.state.selected == u.selected[i := !u.selected[i]])
  {
  }

  /** A refresh is asked for with R or r, on the main screen and on five panels, and the tasks take what it reports. */
  lemma RefreshIff(u: UiState, servers: seq<C.Server>, input: Input)
    requires Inv(u, servers) && OnePerServer(input, servers)
    ensures var h := Handle(u, servers, input);
            && (Refresh in h.actions <==>
                  && input.key in {82, 114}
                  && u.mode in {Main, NetworkTopology, SecurityScanner, PerformanceAnalytics, MonitoringDashboard, AlertCenter})
            && (Refresh in h.actions ==>
                  && h.actions == [Refresh]
                  && h.state == u.(tasks := C.RefreshedAll(u.tasks, servers, input.replies).0))
  {
    HandleSafe(u, servers, input);
  }

  /** A round whose poll is answered: nothing more without a key, and otherwise the key, but for ESC on the main screen. */
  lemma RoundHandlesKey(u: UiState, servers: seq<C.Server>, input: Input)
    requires Inv(u, servers) && OnePerServer(input, servers) && !BadReply(input.poll)
    ensures var v := u.(tasks := C.RefreshedAll(u.tasks, servers, input.poll).0);
            && (input.key == -1 ==> Iterate(u, servers, input) == (v, Going) && Caused(u, servers, input) == [])
            && (input.key != -1 && !(input.key == 27 && u.mode == Main) ==>
                  && Iterate(u, servers, input).0 == Handle(v, servers, input).state
                  && Caused(u, servers, input) == Handle(v, servers, input).actions)
  {
  }

  /** The program starts on the main screen, on the first server, with nothing selected, run, opened or copied. */
  lemma StartsOnMain(servers: seq<C.Server>)
    ensures var u := InitState(servers);
            && u.mode == Main && u.selectedServer == u.selectedTask == u.selectedFile == 0
            && |u.selected| == |servers| && (forall i :: 0 <= i < |servers| ==> !u.selected[i])
            && u.tasks == [] && u.history == [] && u.clipboardFile == "" && !u.clipboardIsCut && u.editFile == ""
  {
  }

  /**
   What Enter would do with a prompt that holds a text: the terminal sends it to the
   selected server and the joint prompt to the selected ones, noted in the history,
   and its tasks are held as RUNNING; the assistant is asked.
   */
  lemma PromptsSend(u: UiState, servers: seq<C.Server>, input: Input)
    requires 0 <= u.selectedServer < |servers| == |u.selected| && OnePerServer(input, servers) && input.key == 10
    ensures u.inputBuffer != "" ==>
      var h, i, command := HandleTerminal(u, servers, input), u.selectedServer, u.inputBuffer;
      var reply := input.execReplies[i];
      && h.actions == [Exec(i, command)] && (h.threw <==> reply.None?)
      && h.state.history == u.history + [command] && h.state.mode == u.mode
      && h.state.inputBuffer == (if h.threw then command else "")
      && h.state.tasks == u.tasks + (if h.threw then [] else [C.Task(reply.value, servers[i].name, command, C.Running)])
    ensures u.inputBuffer != "" ==>
      var h, command := HandleMultiExec(u, servers, input), u.inputBuffer;
      var (actions, tasks, ok) := ExecOnSelected(u.selected, servers, command, input.execReplies);
      && h.actions == actions && (h.threw <==> !ok)
      && h.state.history == u.history + [command] && h.state.mode == u.mode
      && h.state.inputBuffer == (if h.threw then command else "") && h.state.tasks == u.tasks + tasks
    ensures u.aiInput != "" ==> HandleAi(u, input) == Handled(u.(aiInput := ""), [Ask(u.aiInput)], false)
  {
  }

  /** The file list: N opens an empty new file, E a file but no directory, D deletes what is under the cursor. */
  lemma FileKeys(u: UiState, servers: seq<C.Server>, input: Input)
    requires Inv(u, servers) && OnePerServer(input, servers) && u.mode == ServerFiles
    ensures var h, i, n := Handle(u, servers, input), u.selectedFile, |input.files|;
            && (input.key in {78, 110} ==>
                  h == Handled(u.(mode := FileEditor, editFile := "newfile.txt",
                                  editor := State([""], 0, 0, u.editor.scroll)), [], false))
            && (input.key in {69, 101} && (i >= n || input.files[i].isDir) ==> h == Handled(u, [], false))
            && (input.key in {69, 101} && i < n && !input.files[i].isDir ==>
                  && h.actions == [ReadFile(u.selectedServer, input.files[i].name)]
                  && h.state == u.(mode := FileEditor, editFile := input.files[i].name,
                                   editor := State(OpenLines(input.content), 0, 0, u.editor.scroll)))
            && (input.key in {68, 100} ==>
                  h == Handled(u, if i < n then [DeleteFile(u.selectedServer, input.files[i].name)] else [], false))
            && (input.key == 259 ==> h == Handled(u.(selectedFile := if i == 0 then 0 else i - 1), [], false))
            && (input.key == 258 && i < n ==> h == Handled(u.(selectedFile := if i + 1 == n then i else i + 1), [], false))
            && (input.key == 258 && n == 0 && i < 0xFFFF_FFFF ==> h == Handled(u.(selectedFile := i + 1), [], false))
  {
  }

  /** Positions of the tasks that run on a server. */
  function RunningAt(tasks: seq<C.Task>, server: string): set<nat> {
    set k: nat | k < |tasks| && tasks[k].server == server && tasks[k].state == C.Running
  }

  /** The kill screen lists every running task of the server once, in the order of the task list. */
  lemma {:induction false} RunningInOrder(tasks: seq<C.Task>, server: string, k: nat)
    requires k in RunningAt(tasks, server)
    ensures |RunningTasks(tasks, server)| == |RunningAt(tasks, server)|
    ensures |RunningTasks(tasks[..k], server)| < |RunningTasks(tasks, server)|
    ensures RunningTasks(tasks, server)[|RunningTasks(tasks[..k], server)|] == tasks[k]
    decreases |tasks|
  {
    RunningCount(tasks, server);
    var n := |tasks| - 1;
    if k < n {
      assert tasks[..n][..k] == tasks[..k];
      RunningInOrder(tasks[..n], server, k);
    }
  }

  lemma RunningAtSnoc(tasks: seq<C.Task>, last: C.Task, server: string)
    ensures |RunningAt(tasks + [last], server)|
         == |RunningAt(tasks, server)| + if last.server == server && last.state == C.Running then 1 else 0
  {
    assert RunningAt(tasks + [last], server)
        == RunningAt(tasks, server) + if last.server == server && last.state == C.Running then {|tasks|} else {};
  }

  lemma RunningSnoc(tasks: seq<C.Task>, last: C.Task, server: string)
    ensures RunningTasks(tasks + [last], server)
         == if last.server == server && last.state == C.Running then RunningTasks(tasks, server) + [last]
            else RunningTasks(tasks, server)
  {
    assert (tasks + [last])[..|tasks|] == tasks;
  }

  lemma {:induction false} RunningCount(tasks: seq<C.Task>, server: string)
    ensures |RunningTasks(tasks, server)| == |RunningAt(tasks, server)|
    decreases |tasks|
  {
    if tasks == [] {
      assert RunningAt(tasks, server) == {};
    } else {
      var before, last := tasks[..|tasks| - 1], tasks[|tasks| - 1];
      RunningCount(before, server);
      RunningSnoc(before, last, server);
      RunningAtSnoc(before, last, server);
      assert tasks == before + [last];
    }
  }

  /** The kill screen: Enter kills the task under the cursor; the arrows stay in the list, if it is not empty. */
  lemma KillKeys(u: UiState, servers: seq<C.Server>, input: Input)
    requires Inv(u, servers) && OnePerServer(input, servers) && u.mode == ServerKill
    ensures var h, i := Handle(u, servers, input), u.selectedTask;
            var running := RunningTasks(u.tasks, servers[u.selectedServer].name);
            && (input.key == 10 && i < |running| ==> h == Handled(u.(selectedTask := 0), [Kill(running[i])], false))
            && (input.key == 10 && i >= |running| ==> h == Handled(u, [], false))
            && (input.key == 259 ==> h == Handled(u.(selectedTask := if i == 0 then 0 else i - 1), [], false))
            && (input.key == 258 && i < |running| ==>
                  h == Handled(u.(selectedTask := if i + 1 == |running| then i else i + 1), [], false))
            && (input.key == 258 && running == [] && i < 0xFFFF_FFFF ==> h == Handled(u.(selectedTask := i + 1), [], false))
  {
  }

  /** A prompt never grows: a backspace takes its last character, every other key nothing. */
  lemma PromptShrinks(buffer: string, key: int)
    ensures Prompt(buffer, key) == if key in {263, 127, 8} && buffer != "" then buffer[..|buffer| - 1] else buffer
  {
  }

  /** The task that an answered command starts. */
  predicate TaskOf(a: Action, t: C.Task, servers: seq<C.Server>, command: string, replies: seq<Option<string>>) {
    && a.Exec? && a.server < |servers| == |replies| && replies[a.server].Some?
    && t == C.Task(replies[a.server].value, servers[a.server].name, command, C.Running)
  }

  /**
   A command for all selected servers is sent to those of them that have no selected
   server without an id in its reply before them; all answer with one, or it throws.
   */
  lemma {:induction false} ExecutesOnSelected(selected: seq<bool>, servers: seq<C.Server>, command: string,
                                              replies: seq<Option<string>>, i: nat)
    requires i < |selected| <= |servers| == |replies|
    ensures var (actions, _, ok) := ExecOnSelected(selected, servers, command, replies);
            && (ok <==> forall k :: 0 <= k < |selected| && selected[k] ==> replies[k].Some?)
            && (Exec(i, command) in actions <==>
                  selected[i] && forall k :: 0 <= k < i && selected[k] ==> replies[k].Some?)
  {
    var n := |selected| - 1;
    ExecUpTo(selected, servers, command, replies, n);
    ExecInOrder(selected[..n], servers, command, replies);
    if n > 0 {
      ExecutesOnSelected(selected[..n], servers, command, replies, if i < n then i else n - 1);
    }
  }

  /** These commands go out in the order of the servers, once each; the answered ones, in the same order, are the new tasks. */
  lemma {:induction false} ExecInOrder(selected: seq<bool>, servers: seq<C.Server>, command: string,
                                       replies: seq<Option<string>>)
    requires |selected| <= |servers| == |replies|
    ensures var (actions, tasks, ok) := ExecOnSelected(selected, servers, command, replies);
            && |actions| == |tasks| + (if ok then 0 else 1)
            && (forall a <- actions :: a.Exec? && a.server < |selected| && a.command == command)
            && (forall k, l :: 0 <= k < l < |actions| ==> actions[k].server < actions[l].server)
            && (forall k :: 0 <= k < |tasks| ==> TaskOf(actions[k], tasks[k], servers, command, replies))
  {
    if selected != [] {
      var n := |selected| - 1;
      ExecUpTo(selected, servers, command, replies, n);
      ExecInOrder(selected[..n], servers, command, replies);
    }
  }

  lemma ExecUpTo(selected: seq<bool>, servers: seq<C.Server>, command: string, replies: seq<Option<string>>, n: nat)
    requires n + 1 == |selected| <= |servers| == |replies|
    ensures var (actions, tasks, ok) := ExecOnSelected(selected[..n], servers, command, replies);
            ExecOnSelected(selected, servers, command, replies)
            == if !ok || !selected[n] then (actions, tasks, ok)
               else if replies[n].None? then (actions + [Exec(n, command)], tasks, false)
               else (actions + [Exec(n, command)],
                     tasks + [C.Task(replies[n].value, servers[n].name, command, C.Running)], true)
  {
  }

  // ---------------------------------------------------------------- the class

  class UI {
    const tm: C.TaskManager
    var mode: Mode
    var selectedServer: int
    var selectedTask: int
    var selectedFile: int
    var inputBuffer: string
    var commandHistory: seq<string>
    var aiInputBuffer: string
    var currentEditFile: string
    var fileEditorLines: seq<string>
    var editorCursorRow: int
    var editorCursorCol: int
    var editorScrollOffset: int
    var clipboardFile: string
    var clipboardIsCut: bool

    ghost function Editing(): State
      reads this
    {
      State(fileEditorLines, editorCursorRow, editorCursorCol, editorScrollOffset)
    }

    ghost function Value(): UiState
      reads this, tm
    {
      UiState(mode, selectedServer, selectedTask, selectedFile, inputBuffer, commandHistory, aiInputBuffer,
              currentEditFile, Editing(), clipboardFile, clipboardIsCut, tm.tasks, tm.selected)
    }

    ghost predicate Valid()
      reads this, tm
    {
      Inv(Value(), tm.servers)
    }

    constructor (tm: C.TaskManager)
      requires tm.servers != [] && tm.Valid()
      ensures this.tm == tm && Value() == StartState(tm.tasks, tm.selected) && Valid()
    {
      this.tm := tm;
      mode, selectedServer, selectedTask, selectedFile := Main, 0, 0, 0;
      inputBuffer, commandHistory, aiInputBuffer := "", [], "";
      currentEditFile, fileEditorLines, editorCursorRow, editorCursorCol, editorScrollOffset := "", [], 0, 0, 0;
      clipboardFile, clipboardIsCut := "", false;
    }

    /** The main loop, over what its rounds will meet. */
    method Run(inputs: seq<Input>) returns (status: Status)
      requires Valid() && AllOnePerServer(inputs, tm.servers)
      modifies this, tm
      ensures Valid() && (Value(), status) == Reach(old(Value()), tm.servers, inputs)
    {
      var i := 0;
      status := Going;
      while i < |inputs| && status == Going
        invariant 0 <= i <= |inputs| && Valid()
        invariant Reach(old(Value()), tm.servers, inputs)
               == if status == Going then Reach(Value(), tm.servers, inputs[i..]) else (Value(), status)
      {
        assert inputs[i..][0] == inputs[i] && inputs[i..][1..] == inputs[i + 1..];
        var _, now := Round(inputs[i]);
        status := now;
        i := i + 1;
      }
    }

    method Round(input: Input) returns (actions: seq<Action>, status: Status)
      requires Valid() && OnePerServer(input, tm.servers)
      modifies this, tm
      ensures Valid() && (Value(), status) == Iterate(old(Value()), tm.servers, input)
      ensures actions == Caused(old(Value()), tm.servers, input)
    {
      IterateKeepsInv(Value(), tm.servers, input);
      var complete := tm.RefreshTasks(input.poll);
      if !complete {
        return [], Crashed;
      }
      if input.key == ERR {
        return [], Going;
      }
      if input.key == ESC && mode == Main {
        return [], Left;
      }
      var threw;
      actions, threw := HandleInput(input);
      return actions, if threw then Crashed else Going;
    }

    method HandleInput(input: Input) returns (actions: seq<Action>, threw: bool)
      requires Valid() && OnePerServer(input, tm.servers)
      modifies this, tm
      ensures Valid()
      ensures Handled(Value(), actions, threw) == Handle(old(Value()), tm.servers, input)
    {
      HandleSafe(Value(), tm.servers, input);
      actions, threw := [], false;
      match mode
      case Main => actions, threw := OnMain(input);
      case ServerMenu => OnMenu(input);
      case ServerTerminal => actions, threw := OnTerminal(input);
      case ServerKill => actions := OnKill(input);
      case ServerFiles => actions := OnFiles(input);
      case FileEditor => actions, threw := OnEditor(input);
      case MultiServerExec => actions, threw := OnMultiExec(input);
      case AiAssistant => actions := OnAi(input);
      case FileOperations =>
      case _ => actions, threw := OnPanel(input);
    }

    method OnPanel(input: Input) returns (actions: seq<Action>, threw: bool)
      requires OnePerServer(input, tm.servers)
      modifies `mode, tm`tasks
      ensures Handled(Value(), actions, threw) == HandlePanel(old(Value()), tm.servers, input)
    {
      actions, threw := [], false;
      var refreshes := HasRefresh(mode);
      if input.key == ESC {
        mode := ServerMenu;
      }
      if refreshes && Letter(input.key, 'r') {
        actions, threw := OnRefresh(input);
      }
    }

    method OnRefresh(input: Input) returns (actions: seq<Action>, threw: bool)
      requires OnePerServer(input, tm.servers)
      modifies tm`tasks
      ensures Handled(Value(), actions, threw) == HandleRefresh(old(Value()), tm.servers, input.replies)
    {
      actions := [Refresh];
      var complete := tm.RefreshTasks(input.replies);
      threw := !complete;
    }

    method OnMain(input: Input) returns (actions: seq<Action>, threw: bool)
      requires Valid() && OnePerServer(input, tm.servers)
      modifies `mode, `selectedServer, tm
      ensures Handled(Value(), actions, threw) == HandleMain(old(Value()), tm.servers, input)
    {
      var key := input.key;
      actions, threw := [], false;
      if key == KEY_UP && selectedServer > 0 { selectedServer := selectedServer - 1; }
      if key == KEY_DOWN && selectedServer < LastIndex(|tm.servers|) { selectedServer := selectedServer + 1; }
      if key == ' ' as int {
        actions := [Toggle(selectedServer)];
        tm.ToggleServer(selectedServer);
      }
      if key == ENTER { mode := ServerMenu; }
      if Letter(key, 'r') {
        actions, threw := OnRefresh(input);
      }
    }

    method OnMenu(input: Input)
      modifies `mode, `selectedFile
      requires mode == ServerMenu
      ensures Handled(Value(), [], false) == HandleMenu(old(Value()), input)
    {
      mode := MenuTarget(input.key);
      if mode == ServerFiles {
        selectedFile := 0;
      }
    }

    method OnTerminal(input: Input) returns (actions: seq<Action>, threw: bool)
      requires 0 <= selectedServer < |tm.servers| && OnePerServer(input, tm.servers)
      modifies `mode, `inputBuffer, `commandHistory, tm`tasks
      ensures Handled(Value(), actions, threw) == HandleTerminal(old(Value()), tm.servers, input)
    {
      actions, threw := [], false;
      if input.key == ENTER && inputBuffer != "" {
        commandHistory := commandHistory + [inputBuffer];
        actions := [Exec(selectedServer, inputBuffer)];
        var _, ok := tm.ExecOnServer(selectedServer, inputBuffer, map[], input.execReplies[selectedServer]);
        if !ok {
          return actions, true;
        }
        inputBuffer := "";
      } else if input.key == ESC {
        mode := ServerMenu;
      } else {
        inputBuffer := Prompt(inputBuffer, input.key);
      }
    }

    method CollectRunning(tasks: seq<C.Task>) returns (running: seq<C.Task>)
      requires Valid()
      ensures running == RunningTasks(tasks, tm.servers[selectedServer].name)
    {
      running := [];
      for i := 0 to |tasks|
        invariant running == RunningTasks(tasks[..i], tm.servers[selectedServer].name)
      {
        assert tasks[..i + 1][..i] == tasks[..i];
        if tasks[i].server == tm.servers[selectedServer].name && tasks[i].state.Running? {
          running := running + [tasks[i]];
        }
      }
      assert tasks[..|tasks|] == tasks;
    }

    method OnKill(input: Input) returns (actions: seq<Action>)
      requires Valid()
      modifies `mode, `selectedTask
      ensures Handled(Value(), actions, false) == HandleKill(old(Value()), tm.servers, input)
    {
      var key := input.key;
      actions := [];
      var running := CollectRunning(tm.tasks);
      if key == ENTER && running != [] && selectedTask < |running| {
        actions := [Kill(running[selectedTask])];
        selectedTask := 0;
      }
      if key == KEY_UP && selectedTask > 0 { selectedTask := selectedTask - 1; }
      if key == KEY_DOWN && selectedTask < LastIndex(|running|) { selectedTask := selectedTask + 1; }
      if key == ESC {
        mode := ServerMenu;
        selectedTask := 0;
      }
    }

    method OnFiles(input: Input) returns (actions: seq<Action>)
      requires Valid()
      modifies `mode, `selectedFile, `currentEditFile, `fileEditorLines, `editorCursorRow, `editorCursorCol,
               `clipboardFile, `clipboardIsCut
      ensures Handled(Value(), actions, false) == HandleFiles(old(Value()), input)
    {
      var key, files := input.key, input.files;
      actions := [];
      MoveFileCursor(key, |files|);
      if Letter(key, 'n') || Letter(key, 'e') { actions := OnOpen(input); }
      if Letter(key, 'd') && selectedFile < |files| {
        actions := [DeleteFile(selectedServer, files[selectedFile].name)];
      }
      if Letter(key, 'c') || Letter(key, 'x') || Letter(key, 'v') { actions := OnClipboard(input); }
      if key == ESC { mode := ServerMenu; }
    }

    /** The arrow keys. */
    method MoveFileCursor(key: int, files: nat)
      modifies `selectedFile
      ensures selectedFile == if key == KEY_UP && old(selectedFile) > 0 then old(selectedFile) - 1
                              else if key == KEY_DOWN && old(selectedFile) < LastIndex(files) then old(selectedFile) + 1
                              else old(selectedFile)
    {
      if key == KEY_UP && selectedFile > 0 { selectedFile := selectedFile - 1; }
      if key == KEY_DOWN && selectedFile < LastIndex(files) { selectedFile := selectedFile + 1; }
    }

    method StartEditing(name: string, lines: seq<string>)
      modifies `mode, `currentEditFile, `fileEditorLines, `editorCursorRow, `editorCursorCol
      ensures Value() == EditorOn(old(Value()), name, lines)
    {
      mode, currentEditFile := FileEditor, name;
      fileEditorLines, editorCursorRow, editorCursorCol := lines, 0, 0;
    }

    /** The N and E keys. */
    method OnOpen(input: Input) returns (actions: seq<Action>)
      requires 0 <= selectedServer && 0 <= selectedFile
      modifies `mode, `currentEditFile, `fileEditorLines, `editorCursorRow, `editorCursorCol
      ensures Handled(Value(), actions, false) == HandleOpen(old(Value()), input)
    {
      var key, files := input.key, input.files;
      actions := [];
      if Letter(key, 'n') {
        StartEditing("newfile.txt", [""]);
      }
      if Letter(key, 'e') && selectedFile < |files| && !files[selectedFile].isDir {
        actions := [ReadFile(selectedServer, files[selectedFile].name)];
        var lines := LoadLines(input.content);
        StartEditing(files[selectedFile].name, lines);
      }
    }

    /** The C, X and V keys. */
    method OnClipboard(input: Input) returns (actions: seq<Action>)
      requires 0 <= selectedServer && 0 <= selectedFile
      modifies `clipboardFile, `clipboardIsCut
      ensures Handled(Value(), actions, false) == HandleClipboard(old(Value()), input)
    {
      var key, files := input.key, input.files;
      actions := [];
      if Letter(key, 'c') && selectedFile < |files| {
        clipboardFile, clipboardIsCut := files[selectedFile].name, false;
      }
      if Letter(key, 'x') && selectedFile < |files| {
        clipboardFile, clipboardIsCut := files[selectedFile].name, true;
      }
      if Letter(key, 'v') && clipboardFile != "" {
        actions := [ReadFile(selectedServer, clipboardFile),
                    WriteFile(selectedServer, "copy_of_" + clipboardFile, input.content)];
        if clipboardIsCut {
          actions := actions + [DeleteFile(selectedServer, clipboardFile)];
          clipboardFile := "";
        }
      }
    }

    /** std::getline on what is left of the content. */
    static method NextLine(rest: string) returns (line: string, next: string)
      requires rest != ""
      ensures (line, next) == GetLine(rest) && |next| < |rest|
    {
      var (l, n) := GetLine(rest);
      return l, n;
    }

    /** The getline loop of the E key. */
    static method LoadLines(content: string) returns (lines: seq<string>)
      ensures lines == OpenLines(content)
    {
      lines := [];
      var rest := content;
      while rest != ""
        invariant lines + SplitLines(rest) == SplitLines(content)
        decreases |rest|
      {
        ghost var loaded, ahead := lines, rest;
        var line;
        line, rest := NextLine(rest);
        lines := lines + [line];
        LoadStep(loaded, ahead, line, rest);
      }
      LoadEnd(lines, content);
      if lines == [] {
        lines := [""];
      }
    }

    /** The saved text: every line and a newline. */
    method SavedText() returns (content: string)
      ensures content == Terminated(fileEditorLines)
    {
      content := "";
      for i := 0 to |fileEditorLines|
        invariant content == Terminated(fileEditorLines[..i])
      {
        TerminatedEnds(fileEditorLines[..i], fileEditorLines[i]);
        assert fileEditorLines[..i + 1] == fileEditorLines[..i] + [fileEditorLines[i]];
        content := content + fileEditorLines[i] + "\n";
      }
      assert fileEditorLines[..|fileEditorLines|] == fileEditorLines;
    }

    method OnEditor(input: Input) returns (actions: seq<Action>, threw: bool)
      requires Valid() && mode == FileEditor
      modifies this
      ensures Handled(Value(), actions, threw) == HandleEditor(old(Value()), input)
    {
      var key := input.key;
      actions, threw := [], false;
      if key == CTRL_S {
        var content := SavedText();
        actions := [WriteFile(selectedServer, currentEditFile, content)];
        mode := ServerFiles;
      } else if key == CTRL_Q || key == ESC {
        mode := ServerFiles;
      } else if key == KEY_UP && editorCursorRow > 0 {
        editorCursorRow := editorCursorRow - 1;
        if editorCursorRow < editorScrollOffset { editorScrollOffset := editorScrollOffset - 1; }
      } else if key == KEY_DOWN && editorCursorRow < LastIndex(|fileEditorLines|) {
        editorCursorRow := editorCursorRow + 1;
        if editorCursorRow >= editorScrollOffset + (input.height - 6) { editorScrollOffset := editorScrollOffset + 1; }
      } else if key == ENTER {
        threw := SplitLine();
      } else if IsBackspace(key) {
        threw := EraseBefore();
      } else if IsPrint(key) {
        if editorCursorCol > |fileEditorLines[editorCursorRow]| {
          threw := true; // insert throws
        } else {
          var line := fileEditorLines[editorCursorRow];
          fileEditorLines := fileEditorLines[editorCursorRow := line[..editorCursorCol] + [key as char] + line[editorCursorCol..]];
          editorCursorCol := editorCursorCol + 1;
        }
      }
    }

    method SplitLine() returns (threw: bool)
      requires InBounds(Editing())
      modifies `fileEditorLines, `editorCursorRow, `editorCursorCol
      ensures threw == (old(editorCursorCol) > |old(fileEditorLines[editorCursorRow])|)
      ensures Editing() == if threw then old(Editing()) else StepEnter(old(Editing()))
    {
      var currentLine := fileEditorLines[editorCursorRow];
      if editorCursorCol > |currentLine| {
        return true; // substr throws
      }
      var afterCursor := currentLine[editorCursorCol..];
      ghost var was := fileEditorLines;
      fileEditorLines := fileEditorLines[editorCursorRow := currentLine[..editorCursorCol]];
      fileEditorLines := fileEditorLines[..editorCursorRow + 1] + [afterCursor] + fileEditorLines[editorCursorRow + 1..];
      assert fileEditorLines == was[..editorCursorRow] + [currentLine[..editorCursorCol], afterCursor] + was[editorCursorRow + 1..];
      editorCursorRow := editorCursorRow + 1;
      editorCursorCol := 0;
      return false;
    }

    method EraseBefore() returns (threw: bool)
      requires InBounds(Editing())
      modifies `fileEditorLines, `editorCursorRow, `editorCursorCol
      ensures threw == (old(editorCursorCol) > |old(fileEditorLines[editorCursorRow])| + 1)
      ensures Editing() == if threw || (old(editorCursorCol) == 0 && old(editorCursorRow) == 0) then old(Editing())
                           else if old(editorCursorCol) > 0 then StepErase(old(Editing()))
                           else StepJoin(old(Editing()))
    {
      var row := editorCursorRow;
      if editorCursorCol > 0 {
        var line := fileEditorLines[row];
        var from := editorCursorCol - 1;
        if from > |line| {
          return true; // erase throws
        }
        var count := if from < |line| then 1 else 0;
        fileEditorLines := fileEditorLines[row := line[..from] + line[from + count..]];
        editorCursorCol := from;
        assert from == |line| ==> line[..from] + line[from + count..] == line;
        assert from == |line| ==> fileEditorLines == old(fileEditorLines);
      } else if editorCursorRow > 0 {
        var currentLine := fileEditorLines[row];
        editorCursorRow := row - 1;
        editorCursorCol := |fileEditorLines[row - 1]|;
        ghost var was := fileEditorLines;
        fileEditorLines := fileEditorLines[row - 1 := fileEditorLines[row - 1] + currentLine];
        fileEditorLines := fileEditorLines[..row] + fileEditorLines[row + 1..];
        assert fileEditorLines == was[..row - 1] + [was[row - 1] + currentLine] + was[row + 1..];
      }
      return false;
    }

    method OnMultiExec(input: Input) returns (actions: seq<Action>, threw: bool)
      requires |tm.selected| == |tm.servers| && OnePerServer(input, tm.servers)
      modifies `mode, `inputBuffer, `commandHistory, tm`tasks
      ensures Handled(Value(), actions, threw) == HandleMultiExec(old(Value()), tm.servers, input)
    {
      actions, threw := [], false;
      if input.key == ENTER && inputBuffer != "" {
        commandHistory := commandHistory + [inputBuffer];
        actions, threw := ExecEverywhere(input.execReplies);
        if threw {
          return;
        }
        inputBuffer := "";
      } else if input.key == ESC {
        mode := Main;
      } else {
        inputBuffer := Prompt(inputBuffer, input.key);
      }
    }

    /** The loop over the selected servers; a reply without an id throws. */
    method ExecEverywhere(replies: seq<Option<string>>) returns (actions: seq<Action>, threw: bool)
      requires |tm.selected| == |tm.servers| == |replies|
      modifies tm`tasks
      ensures var (sent, started, ok) := ExecOnSelected(tm.selected, tm.servers, inputBuffer, replies);
              actions == sent && threw == !ok && tm.tasks == old(tm.tasks) + started
    {
      actions := [];
      assert tm.tasks + [] == tm.tasks;
      for i := 0 to |tm.servers|
        invariant var (sent, started, ok) := ExecOnSelected(tm.selected[..i], tm.servers, inputBuffer, replies);
                  actions == sent && ok && tm.tasks == old(tm.tasks) + started
      {
        ExecGrows(tm.selected, tm.servers, inputBuffer, replies, i);
        if tm.selected[i] {
          actions := actions + [Exec(i, inputBuffer)];
          var _, ok := tm.ExecOnServer(i, inputBuffer, map[], replies[i]);
          if !ok {
            ExecStops(tm.selected, tm.servers, inputBuffer, replies, i + 1);
            return actions, true;
          }
        }
      }
      assert tm.selected[..|tm.servers|] == tm.selected;
      return actions, false;
    }

    method OnAi(input: Input) returns (actions: seq<Action>)
      modifies `mode, `aiInputBuffer
      ensures Handled(Value(), actions, false) == HandleAi(old(Value()), input)
    {
      actions := [];
      if input.key == ENTER && aiInputBuffer != "" {
        actions := [Ask(aiInputBuffer)];
        aiInputBuffer := "";
      } else if input.key == ESC {
        mode := ServerMenu;
      } else {
        aiInputBuffer := Prompt(aiInputBuffer, input.key);
      }
    }
  }
}
