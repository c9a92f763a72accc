/**
 The client and its servers together. The client is one thread that posts
 /exec and polls /tasks; on every server the threads of TaskServer run on
 regardless. A /tasks reply is read row by row under tasks_mtx, so workers
 still move between two rows and between the reading and the client's update.
 */
module TaskProtocol {
  import S = TaskServer
  import C = TaskManager

  /** What the client's single thread is doing, with the message under way. */
  datatype Phase =
    | Idle
    | ExecSent(server: nat, command: string)
    | ExecAccepted(server: nat, command: string, id: string)
    | Refreshing(next: nat)
    | SnapshotReading(server: nat, rows: seq<C.Entry>)
    | SnapshotSent(server: nat, rows: seq<C.Entry>)

  datatype World = World(names: seq<C.Server>, servers: seq<S.Server>, tasks: seq<C.Task>, phase: Phase)

  datatype Step =
    | ServerStep(server: nat, step: S.Step)
    | SendExec(server: nat, command: string)
    | AcceptExec
    | ReplyExec
    | StartRefresh
    | BeginSnapshot
    | ReadRow(id: string)
    | EndSnapshot
    | ApplySnapshot
    | SkipServer
    | EndRefresh

  predicate Read(rows: seq<C.Entry>, id: string) { C.Mentions(rows, id) }

  predicate Enabled(w: World, step: Step)
    requires |w.names| == |w.servers|
  {
    match step
    case ServerStep(i, s) =>
      && i < |w.servers| && S.Enabled(w.servers[i], s)
      && !(s.Insert? && w.phase.SnapshotReading? && w.phase.server == i) // tasks_mtx is held
    case SendExec(i, _) => w.phase.Idle? && i < |w.servers|
    case AcceptExec => w.phase.ExecSent? && w.phase.server < |w.servers|
    case ReplyExec =>
      w.phase.ExecAccepted? && w.phase.server < |w.servers| && w.phase.id in w.servers[w.phase.server].tasks
    case StartRefresh => w.phase.Idle?
    case BeginSnapshot => w.phase.Refreshing? && w.phase.next < |w.servers|
    case ReadRow(id) =>
      && w.phase.SnapshotReading? && w.phase.server < |w.servers|
      && id in w.servers[w.phase.server].tasks && !Read(w.phase.rows, id)
    case EndSnapshot =>
      && w.phase.SnapshotReading? && w.phase.server < |w.servers|
      && forall id <- w.servers[w.phase.server].tasks :: Read(w.phase.rows, id)
    case ApplySnapshot => w.phase.SnapshotSent? && w.phase.server < |w.servers|
    case SkipServer => w.phase.Refreshing? && w.phase.next < |w.servers|
    case EndRefresh => w.phase.Refreshing? && w.phase.next == |w.servers|
  }

  function WithServer(w: World, i: nat, s: S.Server): World
    requires i < |w.servers|
  {
    w.(servers := w.servers[i := s])
  }

  function Apply(w: World, step: Step): World
    requires |w.names| == |w.servers| && Enabled(w, step)
  {
    match step
    case ServerStep(i, s) => WithServer(w, i, S.Apply(w.servers[i], s))
    case SendExec(i, command) => w.(phase := ExecSent(i, command))
    case AcceptExec =>
      var i, command := w.phase.server, w.phase.command;
      var id := S.NextId(w.servers[i]);
      WithServer(w, i, S.Apply(w.servers[i], S.Accept(command))).(phase := ExecAccepted(i, command, id))
    case ReplyExec =>
      var task := C.Task(w.phase.id, w.names[w.phase.server].name, w.phase.command, C.Running);
      w.(tasks := w.tasks + [task], phase := Idle)
    case StartRefresh => w.(phase := Refreshing(0))
    case BeginSnapshot => w.(phase := SnapshotReading(w.phase.next, []))
    case ReadRow(id) =>
      var row := C.Entry(id, w.servers[w.phase.server].tasks[id].running);
      w.(phase := SnapshotReading(w.phase.server, w.phase.rows + [row]))
    case EndSnapshot => w.(phase := SnapshotSent(w.phase.server, w.phase.rows))
    case ApplySnapshot =>
      w.(tasks := C.Refreshed(w.tasks, w.names[w.phase.server].name, w.phase.rows),
         phase := Refreshing(w.phase.server + 1))
    case SkipServer => w.(phase := Refreshing(w.phase.next + 1))
    case EndRefresh => w.(phase := Idle)
  }

  // ---------------------------------------------------------------- invariant

  /** The client's task t, if it is one of the server called `name`, is known there with its command and rightly FINISHED. */
  predicate TaskTrue(t: C.Task, name: string, s: S.Server) {
    t.server == name ==>
      && t.id in s.tasks && s.tasks[t.id].command == t.command
      && (t.state.Finished? ==> !s.tasks[t.id].running)
  }

  predicate TasksTrue(tasks: seq<C.Task>, name: string, s: S.Server) {
    forall k :: 0 <= k < |tasks| ==> TaskTrue(tasks[k], name, s)
  }

  /** Rows under way: one per id, of known tasks, and never `running: false` for one that runs. */
  predicate RowsTrue(rows: seq<C.Entry>, s: S.Server) {
    && (forall i :: 0 <= i < |rows| ==> rows[i].id in s.tasks && (s.tasks[rows[i].id].running ==> rows[i].running))
    && (forall i, j :: 0 <= i < j < |rows| ==> rows[i].id != rows[j].id)
  }

  predicate RowAllows(row: C.Entry, t: C.Task, name: string) {
    t.server == name && t.id == row.id && row.running ==> t.state.Running?
  }

  /** No row says `running: true` of a task the client holds as FINISHED. */
  predicate NoRevival(rows: seq<C.Entry>, tasks: seq<C.Task>, name: string) {
    forall i, k :: 0 <= i < |rows| && 0 <= k < |tasks| ==> RowAllows(rows[i], tasks[k], name)
  }

  /** Every task the client holds of this server has a row. */
  predicate AllCovered(rows: seq<C.Entry>, tasks: seq<C.Task>, name: string) {
    forall k :: 0 <= k < |tasks| && tasks[k].server == name ==> Read(rows, tasks[k].id)
  }

  predicate PhaseOk(w: World)
    requires |w.names| == |w.servers|
  {
    match w.phase
    case ExecAccepted(i, command, id) =>
      i < |w.servers| && S.Known(w.servers[i], id) && S.CommandOf(w.servers[i], id) == command
    case Refreshing(n) => n <= |w.servers|
    case SnapshotReading(i, rows) =>
      i < |w.servers| && RowsTrue(rows, w.servers[i]) && NoRevival(rows, w.tasks, w.names[i].name)
    case SnapshotSent(i, rows) =>
      && i < |w.servers| && RowsTrue(rows, w.servers[i]) && NoRevival(rows, w.tasks, w.names[i].name)
      && AllCovered(rows, w.tasks, w.names[i].name)
    case _ => true
  }

  predicate IsServer(names: seq<C.Server>, name: string) {
    exists i :: 0 <= i < |names| && names[i].name == name
  }

  ghost predicate Inv(w: World) {
    && |w.names| == |w.servers|
    && C.DistinctNames(w.names)
    && (forall i :: 0 <= i < |w.servers| ==> S.Inv(w.servers[i]))
    && (forall i :: 0 <= i < |w.servers| ==> TasksTrue(w.tasks, w.names[i].name, w.servers[i]))
    && (forall k :: 0 <= k < |w.tasks| ==> IsServer(w.names, w.tasks[k].server))
    && PhaseOk(w)
  }

  ghost predicate Init(w: World) {
    && |w.names| == |w.servers| && C.DistinctNames(w.names)
    && (forall i :: 0 <= i < |w.servers| ==> S.Init(w.servers[i]))
    && w.tasks == [] && w.phase == Idle
  }

  // ------------------------------------------------------------- preservation

  /** What the client believes stays true whatever the server does. */
  lemma EvolutionKeepsTruth(tasks: seq<C.Task>, rows: seq<C.Entry>, name: string, s: S.Server, t: S.Server)
    requires TasksTrue(tasks, name, s) && S.Evolves(s, t)
    ensures TasksTrue(tasks, name, t)
    ensures RowsTrue(rows, s) ==> RowsTrue(rows, t)
  {
    forall k | 0 <= k < |tasks|
      ensures TaskTrue(tasks[k], name, t)
    {
      assert TaskTrue(tasks[k], name, s);
      assert tasks[k].server == name ==> S.Known(s, tasks[k].id) && S.Known(t, tasks[k].id);
    }
  }

  lemma ServerStepKeepsTruth(w: World, i: nat, step: S.Step, j: nat)
    requires Inv(w) && i < |w.servers| && S.Enabled(w.servers[i], step) && j < |w.servers|
    ensures var t := WithServer(w, i, S.Apply(w.servers[i], step)).servers[j];
            S.Inv(t) && TasksTrue(w.tasks, w.names[j].name, t)
  {
    assert S.Inv(w.servers[j]) && TasksTrue(w.tasks, w.names[j].name, w.servers[j]);
    if j == i {
      S.StepKeepsInv(w.servers[i], step);
      EvolutionKeepsTruth(w.tasks, [], w.names[i].name, w.servers[i], S.Apply(w.servers[i], step));
    }
  }

  lemma ServerStepKeepsPhase(w: World, i: nat, step: S.Step)
    requires Inv(w) && i < |w.servers| && S.Enabled(w.servers[i], step)
    ensures PhaseOk(WithServer(w, i, S.Apply(w.servers[i], step)))
  {
    S.StepKeepsInv(w.servers[i], step);
    assert TasksTrue(w.tasks, w.names[i].name, w.servers[i]);
    if (w.phase.SnapshotReading? || w.phase.SnapshotSent?) && w.phase.server == i {
      EvolutionKeepsTruth(w.tasks, w.phase.rows, w.names[i].name, w.servers[i], S.Apply(w.servers[i], step));
    }
  }

  lemma ServerStepKeepsInv(w: World, i: nat, step: S.Step)
    requires Inv(w) && i < |w.servers| && S.Enabled(w.servers[i], step)
    ensures Inv(WithServer(w, i, S.Apply(w.servers[i], step)))
  {
    forall j: nat | j < |w.servers|
      ensures var t := WithServer(w, i, S.Apply(w.servers[i], step)).servers[j];
              S.Inv(t) && TasksTrue(w.tasks, w.names[j].name, t)
    {
      ServerStepKeepsTruth(w, i, step, j);
    }
    ServerStepKeepsPhase(w, i, step);
  }

  lemma AcceptKeepsInv(w: World)
    requires Inv(w) && Enabled(w, AcceptExec)
    ensures Inv(Apply(w, AcceptExec))
  {
    ServerStepKeepsInv(w.(phase := Idle), w.phase.server, S.Accept(w.phase.command));
  }

  lemma ReplyKeepsInv(w: World)
    requires Inv(w) && Enabled(w, ReplyExec)
    ensures Inv(Apply(w, ReplyExec))
  {
    var w' := Apply(w, ReplyExec);
    var i := w.phase.server;
    forall j | 0 <= j < |w.servers|
      ensures TasksTrue(w'.tasks, w.names[j].name, w.servers[j])
    {
      assert TasksTrue(w.tasks, w.names[j].name, w.servers[j]);
      assert j != i ==> w.names[j].name != w.names[i].name;
    }
    forall k | 0 <= k < |w'.tasks|
      ensures IsServer(w.names, w'.tasks[k].server)
    {
      if k < |w.tasks| {
        assert w'.tasks[k] == w.tasks[k];
      } else {
        assert w.names[i].name == w'.tasks[k].server;
      }
    }
  }

  lemma RowAdded(rows: seq<C.Entry>, row: C.Entry, s: S.Server)
    requires RowsTrue(rows, s) && row.id in s.tasks && row.running == s.tasks[row.id].running && !Read(rows, row.id)
    ensures RowsTrue(rows + [row], s)
  {
    forall j | 0 <= j < |rows|
      ensures rows[j].id != row.id
    {
      assert rows[j] in rows;
    }
  }

  lemma RowAddedRevivesNone(rows: seq<C.Entry>, row: C.Entry, tasks: seq<C.Task>, name: string, s: S.Server)
    requires NoRevival(rows, tasks, name) && TasksTrue(tasks, name, s)
    requires row.id in s.tasks && row.running == s.tasks[row.id].running
    ensures NoRevival(rows + [row], tasks, name)
  {
    forall k | 0 <= k < |tasks|
      ensures RowAllows(row, tasks[k], name)
    {
      assert TaskTrue(tasks[k], name, s);
    }
  }

  lemma ReadRowKeepsInv(w: World, id: string)
    requires Inv(w) && Enabled(w, ReadRow(id))
    ensures Inv(Apply(w, ReadRow(id)))
  {
    var i, rows := w.phase.server, w.phase.rows;
    var s := w.servers[i];
    var row := C.Entry(id, s.tasks[id].running);
    assert TasksTrue(w.tasks, w.names[i].name, s);
    RowAdded(rows, row, s);
    RowAddedRevivesNone(rows, row, w.tasks, w.names[i].name, s);
    PhaseOnly(w, SnapshotReading(i, rows + [row]));
  }

  /** A step that only moves the client on keeps everything but what its new phase says. */
  lemma PhaseOnly(w: World, phase: Phase)
    requires Inv(w) && PhaseOk(w.(phase := phase))
    ensures Inv(w.(phase := phase))
  {
  }

  lemma EndSnapshotKeepsInv(w: World)
    requires Inv(w) && Enabled(w, EndSnapshot)
    ensures Inv(Apply(w, EndSnapshot))
  {
    var i := w.phase.server;
    assert TasksTrue(w.tasks, w.names[i].name, w.servers[i]);
    forall k | 0 <= k < |w.tasks| && w.tasks[k].server == w.names[i].name
      ensures Read(w.phase.rows, w.tasks[k].id)
    {
      assert TaskTrue(w.tasks[k], w.names[i].name, w.servers[i]);
    }
    PhaseOnly(w, SnapshotSent(i, w.phase.rows));
  }

  /** With one row per id, the row of an id is what the reply reports about it. */
  lemma RowReports(rows: seq<C.Entry>, s: S.Server, i: nat)
    requires RowsTrue(rows, s) && i < |rows|
    ensures C.Reports(rows, rows[i].id, rows[i].running)
  {
    assert rows[i] == C.Entry(rows[i].id, rows[i].running);
  }

  /** What applying a reply does to one task of the client. */
  lemma AppliedTask(w: World, k: nat)
    requires Inv(w) && Enabled(w, ApplySnapshot) && k < |w.tasks|
    ensures var i, rows := w.phase.server, w.phase.rows;
            var t, t' := w.tasks[k], Apply(w, ApplySnapshot).tasks[k];
            && t'.id == t.id && t'.server == t.server && t'.command == t.command
            && (t.state.Finished? ==> t'.state.Finished?)
            && (t.server != w.names[i].name ==> t' == t)
            && (t.server == w.names[i].name ==>
                  exists j :: 0 <= j < |rows| && rows[j].id == t.id && t'.state == C.StateOf(rows[j].running))
            && TaskTrue(t', w.names[i].name, w.servers[i])
  {
    var i, rows := w.phase.server, w.phase.rows;
    var t := w.tasks[k];
    C.UpdatedReports(t, w.names[i].name, rows);
    if t.server == w.names[i].name {
      assert Read(rows, t.id);
      var e :| e in rows && e.id == t.id;
      var j :| 0 <= j < |rows| && rows[j] == e;
      RowReports(rows, w.servers[i], j);
      assert TasksTrue(w.tasks, w.names[i].name, w.servers[i]);
    }
  }

  lemma ApplyKeepsInv(w: World)
    requires Inv(w) && Enabled(w, ApplySnapshot)
    ensures Inv(Apply(w, ApplySnapshot))
  {
    forall j | 0 <= j < |w.servers|
      ensures TasksTrue(Apply(w, ApplySnapshot).tasks, w.names[j].name, w.servers[j])
    {
      ApplyKeepsTruth(w, j);
    }
    forall k | 0 <= k < |w.tasks|
      ensures IsServer(w.names, Apply(w, ApplySnapshot).tasks[k].server)
    {
      AppliedTask(w, k);
    }
  }

  lemma ApplyKeepsTruth(w: World, j: nat)
    requires Inv(w) && Enabled(w, ApplySnapshot) && j < |w.servers|
    ensures TasksTrue(Apply(w, ApplySnapshot).tasks, w.names[j].name, w.servers[j])
  {
    var i := w.phase.server;
    forall k | 0 <= k < |w.tasks|
      ensures TaskTrue(Apply(w, ApplySnapshot).tasks[k], w.names[j].name, w.servers[j])
    {
      AppliedTask(w, k);
      if j != i {
        assert TasksTrue(w.tasks, w.names[j].name, w.servers[j]);
        assert TaskTrue(w.tasks[k], w.names[j].name, w.servers[j]);
        assert w.names[i].name != w.names[j].name;
      }
    }
  }

  lemma StepKeepsInv(w: World, step: Step)
    requires Inv(w) && Enabled(w, step)
    ensures Inv(Apply(w, step))
  {
    match step
    case ServerStep(i, s) => ServerStepKeepsInv(w, i, s);
    case AcceptExec => AcceptKeepsInv(w);
    case ReplyExec => ReplyKeepsInv(w);
    case ReadRow(id) => ReadRowKeepsInv(w, id);
    case EndSnapshot => EndSnapshotKeepsInv(w);
    case ApplySnapshot => ApplyKeepsInv(w);
    case SendExec(i, command) => PhaseOnly(w, ExecSent(i, command));
    case StartRefresh => PhaseOnly(w, Refreshing(0));
    case BeginSnapshot => PhaseOnly(w, SnapshotReading(w.phase.next, []));
    case SkipServer => PhaseOnly(w, Refreshing(w.phase.next + 1));
    case EndRefresh => PhaseOnly(w, Idle);
  }

  /** No step changes a task's place, id, server or command, and none brings a FINISHED task back. */
  lemma StepKeepsTask(w: World, step: Step, k: nat)
    requires Inv(w) && Enabled(w, step) && k < |w.tasks|
    ensures |w.tasks| <= |Apply(w, step).tasks|
    ensures SameTask(w.tasks[k], Apply(w, step).tasks[k])
  {
    if step.ApplySnapshot? {
      AppliedTask(w, k);
    }
  }

  predicate SameTask(t: C.Task, t': C.Task) {
    t'.id == t.id && t'.server == t.server && t'.command == t.command && (t.state.Finished? ==> t'.state.Finished?)
  }

  // --------------------------------------------------------------- every run

  ghost predicate ValidRun(w: World, steps: seq<Step>)
    decreases |steps|
  {
    |w.names| == |w.servers|
    && (steps == [] || (Enabled(w, steps[0]) && ValidRun(Apply(w, steps[0]), steps[1..])))
  }

  ghost function Run(w: World, steps: seq<Step>): World
    requires ValidRun(w, steps)
    decreases |steps|
  {
    if steps == [] then w else Run(Apply(w, steps[0]), steps[1..])
  }

  lemma InitInv(w: World)
    requires Init(w)
    ensures Inv(w)
  {
    forall i | 0 <= i < |w.servers|
      ensures S.Inv(w.servers[i])
    {
      S.InitInv(w.servers[i]);
    }
  }

  lemma {:induction false} RunKeepsInv(w: World, steps: seq<Step>)
    requires Inv(w) && ValidRun(w, steps)
    ensures Inv(Run(w, steps))
    decreases |steps|
  {
    if steps != [] {
      StepKeepsInv(w, steps[0]);
      RunKeepsInv(Apply(w, steps[0]), steps[1..]);
    }
  }

  /** From any reachable world on: a task keeps its identity, and once FINISHED stays FINISHED. */
  lemma {:induction false} FinishedForever(w: World, steps: seq<Step>, k: nat)
    requires Inv(w) && ValidRun(w, steps) && k < |w.tasks|
    ensures |w.tasks| <= |Run(w, steps).tasks|
    ensures SameTask(w.tasks[k], Run(w, steps).tasks[k])
    decreases |steps|
  {
    if steps != [] {
      StepKeepsInv(w, steps[0]);
      StepKeepsTask(w, steps[0], k);
      FinishedForever(Apply(w, steps[0]), steps[1..], k);
    }
  }

  /** In every interleaving: a task the client shows as FINISHED has stopped on its own server. */
  lemma FinishedMeansStopped(w: World, steps: seq<Step>, k: nat)
    requires Init(w) && ValidRun(w, steps)
    requires k < |Run(w, steps).tasks| && Run(w, steps).tasks[k].state.Finished?
    ensures var v := Run(w, steps);
            exists i :: 0 <= i < |v.servers| == |v.names| && v.names[i].name == v.tasks[k].server
                        && v.tasks[k].id in v.servers[i].tasks && !v.servers[i].tasks[v.tasks[k].id].running
  {
    InitInv(w);
    RunKeepsInv(w, steps);
    var v := Run(w, steps);
    var i :| 0 <= i < |v.names| && v.names[i].name == v.tasks[k].server;
    assert TasksTrue(v.tasks, v.names[i].name, v.servers[i]);
    assert TaskTrue(v.tasks[k], v.names[i].name, v.servers[i]);
  }

  /** ... and everything it wrote is in that server's log, and has been, or is about to be, announced. */
  lemma FinishedMeansComplete(w: World, steps: seq<Step>, k: nat, i: nat)
    requires Init(w) && ValidRun(w, steps)
    requires k < |Run(w, steps).tasks| && Run(w, steps).tasks[k].state.Finished?
    requires i < |Run(w, steps).names| && Run(w, steps).names[i].name == Run(w, steps).tasks[k].server
    ensures var v := Run(w, steps);
            var id := v.tasks[k].id;
            && i < |v.servers| && id in v.servers[i].tasks
            && v.servers[i].tasks[id].launch.Some?
            && (v.servers[i].tasks[id].launch.value.Pipe? ==>
                  v.servers[i].tasks[id].output == v.servers[i].tasks[id].launch.value.content)
  {
    InitInv(w);
    RunKeepsInv(w, steps);
    var v := Run(w, steps);
    var id := v.tasks[k].id;
    assert TasksTrue(v.tasks, v.names[i].name, v.servers[i]);
    assert TaskTrue(v.tasks[k], v.names[i].name, v.servers[i]);
    S.StoppedMeansComplete(v.servers[i], id);
  }

  /** In every interleaving each task of the client has the command of its record on its own server. */
  lemma ClientCommandIsServers(w: World, steps: seq<Step>, k: nat, i: nat)
    requires Init(w) && ValidRun(w, steps) && k < |Run(w, steps).tasks|
    requires i < |Run(w, steps).names| && Run(w, steps).names[i].name == Run(w, steps).tasks[k].server
    ensures var v := Run(w, steps);
            && i < |v.servers| && v.tasks[k].id in v.servers[i].tasks
            && v.servers[i].tasks[v.tasks[k].id].command == v.tasks[k].command
  {
    InitInv(w);
    RunKeepsInv(w, steps);
    var v := Run(w, steps);
    assert TasksTrue(v.tasks, v.names[i].name, v.servers[i]);
    assert TaskTrue(v.tasks[k], v.names[i].name, v.servers[i]);
  }

  // ------------------------------------------------- what was sent is what is held

  datatype Posted = Posted(server: string, command: string)

  /** The commands sent by some steps, in order. */
  function Sends(names: seq<C.Server>, steps: seq<Step>): seq<Posted>
    requires forall i :: 0 <= i < |steps| && steps[i].SendExec? ==> steps[i].server < |names|
  {
    if steps == [] then [] else
    var rest := Sends(names, steps[1..]);
    if steps[0].SendExec? then [Posted(names[steps[0].server].name, steps[0].command)] + rest else rest
  }

  /** The commands of the tasks held, and the one whose reply is awaited. */
  function Holds(w: World): seq<Posted> {
    var held := Held(w.tasks);
    match w.phase
    case ExecSent(i, command) => if i < |w.names| then held + [Posted(w.names[i].name, command)] else held
    case ExecAccepted(i, command, _) => if i < |w.names| then held + [Posted(w.names[i].name, command)] else held
    case _ => held
  }

  function Held(tasks: seq<C.Task>): seq<Posted> {
    seq(|tasks|, k requires 0 <= k < |tasks| => Posted(tasks[k].server, tasks[k].command))
  }

  lemma HeldGrows(tasks: seq<C.Task>, t: C.Task)
    ensures Held(tasks + [t]) == Held(tasks) + [Posted(t.server, t.command)]
  {
  }

  lemma ApplyHolds(w: World)
    requires Inv(w) && Enabled(w, ApplySnapshot)
    ensures Held(Apply(w, ApplySnapshot).tasks) == Held(w.tasks)
  {
    forall k | 0 <= k < |w.tasks|
      ensures SameTask(w.tasks[k], Apply(w, ApplySnapshot).tasks[k])
    {
      AppliedTask(w, k);
    }
  }

  lemma StepHolds(w: World, step: Step)
    requires Inv(w) && Enabled(w, step)
    ensures Apply(w, step).names == w.names && |Apply(w, step).servers| == |w.servers|
    ensures step.SendExec? ==> step.server < |w.names|
                               && Holds(Apply(w, step)) == Holds(w) + [Posted(w.names[step.server].name, step.command)]
    ensures !step.SendExec? ==> Holds(Apply(w, step)) == Holds(w)
  {
    if step.ApplySnapshot? {
      ApplyHolds(w);
    } else if step.ReplyExec? {
      HeldGrows(w.tasks, C.Task(w.phase.id, w.names[w.phase.server].name, w.phase.command, C.Running));
    }
  }

  lemma {:induction false} SendsInRange(w: World, steps: seq<Step>)
    requires Inv(w) && ValidRun(w, steps)
    ensures forall i :: 0 <= i < |steps| && steps[i].SendExec? ==> steps[i].server < |w.names|
    decreases |steps|
  {
    if steps != [] {
      StepKeepsInv(w, steps[0]);
      StepHolds(w, steps[0]);
      SendsInRange(Apply(w, steps[0]), steps[1..]);
      assert forall i :: 0 < i < |steps| ==> steps[i] == steps[1..][i - 1];
    }
  }

  lemma FirstSend(names: seq<C.Server>, steps: seq<Step>, holds: seq<Posted>)
    requires steps != [] && forall i :: 0 <= i < |steps| && steps[i].SendExec? ==> steps[i].server < |names|
    ensures steps[0].SendExec? ==>
      holds + Sends(names, steps)
      == holds + [Posted(names[steps[0].server].name, steps[0].command)] + Sends(names, steps[1..])
    ensures !steps[0].SendExec? ==> Sends(names, steps) == Sends(names, steps[1..])
  {
  }

  /** In every interleaving the client's tasks are the commands it has sent, in order, on the servers it sent them to. */
  lemma {:induction false} TasksAreSends(w: World, steps: seq<Step>)
    requires Inv(w) && ValidRun(w, steps)
    ensures forall i :: 0 <= i < |steps| && steps[i].SendExec? ==> steps[i].server < |w.names|
    ensures Holds(Run(w, steps)) == Holds(w) + Sends(w.names, steps)
    decreases |steps|
  {
    SendsInRange(w, steps);
    if steps != [] {
      StepKeepsInv(w, steps[0]);
      StepHolds(w, steps[0]);
      FirstSend(w.names, steps, Holds(w));
      TasksAreSends(Apply(w, steps[0]), steps[1..]);
    }
  }

  // ----------------------------------------------------------- a quiet refresh

  /** The steps of a refresh that reaches every server, while no server's thread moves. */
  predicate Quiet(step: Step) {
    step.BeginSnapshot? || step.ReadRow? || step.EndSnapshot? || step.ApplySnapshot? || step.EndRefresh?
  }

  /** The client shows what the server says now. */
  predicate TaskExact(t: C.Task, name: string, s: S.Server) {
    t.server == name ==> t.id in s.tasks && (t.state.Running? <==> s.tasks[t.id].running)
  }

  predicate TasksExact(tasks: seq<C.Task>, name: string, s: S.Server) {
    forall k :: 0 <= k < |tasks| ==> TaskExact(tasks[k], name, s)
  }

  predicate RowsExact(rows: seq<C.Entry>, s: S.Server) {
    forall i :: 0 <= i < |rows| ==> rows[i].id in s.tasks && rows[i].running == s.tasks[rows[i].id].running
  }

  predicate ExactUpTo(names: seq<C.Server>, servers: seq<S.Server>, tasks: seq<C.Task>, n: nat)
    requires n <= |names| == |servers|
  {
    forall j :: 0 <= j < n ==> TasksExact(tasks, names[j].name, servers[j])
  }

  /** The client shows what every server says now. */
  predicate AllExact(w: World) {
    |w.names| == |w.servers| && ExactUpTo(w.names, w.servers, w.tasks, |w.servers|)
  }

  predicate QuietInv(w: World)
    requires |w.names| == |w.servers|
  {
    match w.phase
    case Refreshing(n) => n <= |w.servers| && ExactUpTo(w.names, w.servers, w.tasks, n)
    case SnapshotReading(i, rows) =>
      i < |w.servers| && ExactUpTo(w.names, w.servers, w.tasks, i) && RowsExact(rows, w.servers[i])
    case SnapshotSent(i, rows) =>
      i < |w.servers| && ExactUpTo(w.names, w.servers, w.tasks, i) && RowsExact(rows, w.servers[i])
    case Idle => AllExact(w)
    case _ => false
  }

  /** The server in question takes the states in its rows. */
  lemma OwnTaskExact(w: World, k: nat)
    requires Inv(w) && Enabled(w, ApplySnapshot) && k < |w.tasks| && RowsExact(w.phase.rows, w.servers[w.phase.server])
    ensures TaskExact(Apply(w, ApplySnapshot).tasks[k], w.names[w.phase.server].name, w.servers[w.phase.server])
  {
    var i, rows := w.phase.server, w.phase.rows;
    AppliedTask(w, k);
    if w.tasks[k].server == w.names[i].name {
      var t' := Apply(w, ApplySnapshot).tasks[k];
      var j :| 0 <= j < |rows| && rows[j].id == w.tasks[k].id && t'.state == C.StateOf(rows[j].running);
      assert rows[j].running == w.servers[i].tasks[rows[j].id].running;
    }
  }

  lemma OwnServerExact(w: World)
    requires Inv(w) && Enabled(w, ApplySnapshot) && RowsExact(w.phase.rows, w.servers[w.phase.server])
    ensures TasksExact(Apply(w, ApplySnapshot).tasks, w.names[w.phase.server].name, w.servers[w.phase.server])
  {
    forall k | 0 <= k < |w.tasks|
      ensures TaskExact(Apply(w, ApplySnapshot).tasks[k], w.names[w.phase.server].name, w.servers[w.phase.server])
    {
      OwnTaskExact(w, k);
    }
  }

  /** Rows of another server change nothing. */
  lemma OtherServerExact(tasks: seq<C.Task>, rows: seq<C.Entry>, other: string, name: string, s: S.Server)
    requires TasksExact(tasks, name, s) && other != name
    ensures TasksExact(C.Refreshed(tasks, other, rows), name, s)
  {
    forall k | 0 <= k < |tasks|
      ensures TaskExact(C.Refreshed(tasks, other, rows)[k], name, s)
    {
      assert TaskExact(tasks[k], name, s);
      C.UpdatedReports(tasks[k], other, rows);
    }
  }

  lemma OneMoreExact(names: seq<C.Server>, servers: seq<S.Server>, tasks: seq<C.Task>, n: nat)
    requires n < |names| == |servers|
    requires ExactUpTo(names, servers, tasks, n) && TasksExact(tasks, names[n].name, servers[n])
    ensures ExactUpTo(names, servers, tasks, n + 1)
  {
  }

  lemma OthersExact(names: seq<C.Server>, servers: seq<S.Server>, tasks: seq<C.Task>, i: nat, rows: seq<C.Entry>)
    requires i < |names| == |servers| && C.DistinctNames(names) && ExactUpTo(names, servers, tasks, i)
    ensures ExactUpTo(names, servers, C.Refreshed(tasks, names[i].name, rows), i)
  {
    forall j | 0 <= j < i
      ensures TasksExact(C.Refreshed(tasks, names[i].name, rows), names[j].name, servers[j])
    {
      OtherServerExact(tasks, rows, names[i].name, names[j].name, servers[j]);
    }
  }

  lemma ApplyExact(w: World)
    requires Inv(w) && Enabled(w, ApplySnapshot) && QuietInv(w)
    ensures QuietInv(Apply(w, ApplySnapshot))
  {
    OwnServerExact(w);
    OthersExact(w.names, w.servers, w.tasks, w.phase.server, w.phase.rows);
    OneMoreExact(w.names, w.servers, Apply(w, ApplySnapshot).tasks, w.phase.server);
  }

  lemma QuietStep(w: World, step: Step)
    requires Inv(w) && Enabled(w, step) && QuietInv(w) && Quiet(step)
    ensures QuietInv(Apply(w, step)) && Apply(w, step).servers == w.servers && Apply(w, step).names == w.names
  {
    if step.ApplySnapshot? {
      ApplyExact(w);
    }
  }

  predicate AllQuiet(steps: seq<Step>) {
    forall i :: 0 <= i < |steps| ==> Quiet(steps[i])
  }

  lemma {:induction false} QuietRun(w: World, steps: seq<Step>)
    requires Inv(w) && QuietInv(w) && ValidRun(w, steps) && AllQuiet(steps)
    ensures Inv(Run(w, steps)) && QuietInv(Run(w, steps)) && Run(w, steps).servers == w.servers
    decreases |steps|
  {
    if steps != [] {
      StepKeepsInv(w, steps[0]);
      QuietStep(w, steps[0]);
      QuietRun(Apply(w, steps[0]), steps[1..]);
    }
  }

  /** After a refresh that reached every server, and that no server's thread interrupted, the client shows exactly what runs. */
  lemma QuietRefreshShowsTruth(w: World, steps: seq<Step>)
    requires Inv(w) && w.phase.Idle? && ValidRun(w, [StartRefresh] + steps) && AllQuiet(steps)
    requires Run(w, [StartRefresh] + steps).phase.Idle?
    ensures var v := Run(w, [StartRefresh] + steps);
            v.servers == w.servers && AllExact(v)
  {
    assert ([StartRefresh] + steps)[1..] == steps;
    StepKeepsInv(w, StartRefresh);
    QuietRun(Apply(w, StartRefresh), steps);
  }

  // ------------------------------------------------ every server has its turn

  predicate InRefresh(phase: Phase) {
    phase.Refreshing? || phase.SnapshotReading? || phase.SnapshotSent?
  }

  /** The server whose turn it is. */
  function Turn(phase: Phase): nat
    requires InRefresh(phase)
  {
    if phase.Refreshing? then phase.next else phase.server
  }

  /** The servers that a refresh leaves behind it, one for each reply it applies and each server it cannot reach. */
  function Passed(steps: seq<Step>): nat {
    if steps == [] then 0
    else (if steps[0].ApplySnapshot? || steps[0].SkipServer? then 1 else 0) + Passed(steps[1..])
  }

  lemma StepTakesTurns(w: World, step: Step)
    requires |w.names| == |w.servers| && Enabled(w, step) && InRefresh(w.phase) && !step.EndRefresh?
    ensures var w' := Apply(w, step);
            && |w'.names| == |w'.servers| == |w.servers| && InRefresh(w'.phase)
            && Turn(w'.phase) == Turn(w.phase) + Passed([step])
            && (step.SkipServer? ==> w'.tasks == w.tasks && w'.servers == w.servers)
  {
  }

  /**
   Whatever the servers do meanwhile, a refresh asks them in order and can end only
   when each has answered or was out of reach; one out of reach changes nothing.
   */
  lemma {:induction false} RefreshTakesTurns(w: World, steps: seq<Step>)
    requires ValidRun(w, steps) && InRefresh(w.phase)
    requires forall k :: 0 <= k < |steps| ==> !steps[k].EndRefresh?
    ensures var v := Run(w, steps);
            && |v.names| == |v.servers| == |w.servers| && InRefresh(v.phase)
            && Turn(v.phase) == Turn(w.phase) + Passed(steps)
            && (Enabled(v, EndRefresh) ==> Turn(w.phase) + Passed(steps) == |w.servers|)
    decreases |steps|
  {
    if steps != [] {
      StepTakesTurns(w, steps[0]);
      assert Passed([steps[0]]) == Passed(steps) - Passed(steps[1..]) by {
        assert [steps[0]][1..] == [];
      }
      RefreshTakesTurns(Apply(w, steps[0]), steps[1..]);
    }
  }

  function Skips(n: nat): (steps: seq<Step>)
    ensures |steps| == n && forall i :: 0 <= i < n ==> steps[i] == SkipServer
  {
    seq(n, _ => SkipServer)
  }

  /** Any server may be out of reach; a refresh that reaches none of those left gets to its end with nothing changed. */
  lemma {:induction false} UnreachedChangeNothing(w: World, n: nat)
    requires |w.names| == |w.servers| && w.phase.Refreshing? && n == |w.servers| - w.phase.next
    ensures ValidRun(w, Skips(n)) && Run(w, Skips(n)) == w.(phase := Refreshing(|w.servers|))
    ensures Enabled(Run(w, Skips(n)), EndRefresh) && Apply(Run(w, Skips(n)), EndRefresh) == w.(phase := Idle)
    decreases n
  {
    if n > 0 {
      assert Skips(n)[1..] == Skips(n - 1);
      UnreachedChangeNothing(Apply(w, SkipServer), n - 1);
    }
  }

  // -------------------------------------------------------------- no dead ends

  /** The client can get back to Idle by quiet steps alone. */
  ghost predicate CanFinish(w: World) {
    exists steps :: AllQuiet(steps) && ValidRun(w, steps) && Run(w, steps).phase.Idle?
  }

  lemma FinishAfter(w: World, step: Step)
    requires |w.names| == |w.servers| && Enabled(w, step) && Quiet(step) && CanFinish(Apply(w, step))
    ensures CanFinish(w)
  {
    var steps :| AllQuiet(steps) && ValidRun(Apply(w, step), steps) && Run(Apply(w, step), steps).phase.Idle?;
    assert ([step] + steps)[1..] == steps;
    assert AllQuiet([step] + steps) && ValidRun(w, [step] + steps);
  }

  function Unread(w: World, i: nat, rows: seq<C.Entry>): set<string>
    requires i < |w.servers|
  {
    set id <- w.servers[i].tasks.Keys | !Read(rows, id)
  }

  /** A refresh under way can always be brought to its end, with every server reached. */
  lemma {:induction false} RefreshCanFinish(w: World)
    requires Inv(w) && (w.phase.Refreshing? || w.phase.SnapshotReading? || w.phase.SnapshotSent?)
    ensures CanFinish(w)
    decreases if w.phase.Refreshing? then |w.servers| - w.phase.next else |w.servers| - w.phase.server,
              if w.phase.Refreshing? then 2 else if w.phase.SnapshotReading? then 1 else 0,
              if w.phase.SnapshotReading? then |Unread(w, w.phase.server, w.phase.rows)| else 0
  {
    match w.phase
    case Refreshing(n) =>
      if n == |w.servers| {
        assert Run(Apply(w, EndRefresh), []).phase.Idle? && AllQuiet([]);
        assert ValidRun(Apply(w, EndRefresh), []);
        FinishAfter(w, EndRefresh);
      } else {
        StepKeepsInv(w, BeginSnapshot);
        RefreshCanFinish(Apply(w, BeginSnapshot));
        FinishAfter(w, BeginSnapshot);
      }
    case SnapshotReading(i, rows) =>
      var unread := Unread(w, i, rows);
      if id :| id in unread {
        StepKeepsInv(w, ReadRow(id));
        UnreadShrinks(w, i, rows, id);
        RefreshCanFinish(Apply(w, ReadRow(id)));
        FinishAfter(w, ReadRow(id));
      } else {
        assert forall id <- w.servers[i].tasks :: id !in unread ==> Read(rows, id);
        StepKeepsInv(w, EndSnapshot);
        RefreshCanFinish(Apply(w, EndSnapshot));
        FinishAfter(w, EndSnapshot);
      }
    case SnapshotSent(i, _) =>
      StepKeepsInv(w, ApplySnapshot);
      RefreshCanFinish(Apply(w, ApplySnapshot));
      FinishAfter(w, ApplySnapshot);
  }

  lemma UnreadShrinks(w: World, i: nat, rows: seq<C.Entry>, id: string)
    requires i < |w.servers| && id in Unread(w, i, rows)
    ensures var row := C.Entry(id, w.servers[i].tasks[id].running);
            |Unread(w, i, rows + [row])| < |Unread(w, i, rows)|
  {
    var row := C.Entry(id, w.servers[i].tasks[id].running);
    assert row in rows + [row];
    forall j | Read(rows, j)
      ensures Read(rows + [row], j)
    {
      var e :| e in rows && e.id == j;
      assert e in rows + [row];
    }
    Shrinks(Unread(w, i, rows + [row]), Unread(w, i, rows), id);
  }

  lemma Shrinks(a: set<string>, b: set<string>, x: string)
    requires a <= b && x in b && x !in a
    ensures |a| < |b|
  {
    assert a <= b - {x};
    SubsetSmaller(a, b - {x});
  }

  lemma {:induction false} SubsetSmaller(a: set<string>, b: set<string>)
    requires a <= b
    ensures |a| <= |b|
  {
    if x :| x in a {
      SubsetSmaller(a - {x}, b - {x});
    }
  }

  /** From any reachable world in which the client is idle it can learn exactly what runs. */
  lemma TruthCanBeShown(w: World) returns (steps: seq<Step>)
    requires Inv(w) && w.phase.Idle?
    ensures ValidRun(w, steps)
    ensures var v := Run(w, steps); v.servers == w.servers && AllExact(v)
  {
    StepKeepsInv(w, StartRefresh);
    RefreshCanFinish(Apply(w, StartRefresh));
    var rest :| AllQuiet(rest) && ValidRun(Apply(w, StartRefresh), rest)
                && Run(Apply(w, StartRefresh), rest).phase.Idle?;
    steps := [StartRefresh] + rest;
    assert steps[1..] == rest;
    QuietRefreshShowsTruth(w, rest);
  }

  /** A command sent can always be accepted, inserted and answered, and then the client holds its task as RUNNING. */
  lemma CommandCanBeAnswered(w: World, i: nat, command: string) returns (steps: seq<Step>)
    requires Inv(w) && w.phase.Idle? && i < |w.servers|
    ensures ValidRun(w, [SendExec(i, command)] + steps)
    ensures var v := Run(w, [SendExec(i, command)] + steps);
            && v.phase.Idle?
            && v.tasks == w.tasks + [C.Task(S.NextId(w.servers[i]), w.names[i].name, command, C.Running)]
  {
    var id := S.NextId(w.servers[i]);
    S.NextIdFresh(w.servers[i]);
    steps := [AcceptExec, ServerStep(i, S.Insert(id)), ReplyExec];
    var w1 := Apply(w, SendExec(i, command));
    var w2 := Apply(w1, AcceptExec);
    var w3 := Apply(w2, ServerStep(i, S.Insert(id)));
    var all := [SendExec(i, command)] + steps;
    assert all[1..] == steps && steps[1..] == [ServerStep(i, S.Insert(id)), ReplyExec];
    assert steps[1..][1..] == [ReplyExec] && [ReplyExec][1..] == [];
    RunOfOne(w3, ReplyExec);
    RunStarts(w2, steps[1..]);
    RunStarts(w1, steps);
    RunStarts(w, all);
  }

  lemma RunOfOne(w: World, step: Step)
    requires |w.names| == |w.servers| && Enabled(w, step)
    requires |Apply(w, step).names| == |Apply(w, step).servers|
    ensures ValidRun(w, [step]) && Run(w, [step]) == Apply(w, step)
  {
    assert [step][1..] == [];
  }

  lemma RunStarts(w: World, steps: seq<Step>)
    requires |w.names| == |w.servers| && steps != [] && Enabled(w, steps[0]) && ValidRun(Apply(w, steps[0]), steps[1..])
    ensures ValidRun(w, steps) && Run(w, steps) == Run(Apply(w, steps[0]), steps[1..])
  {
  }
}
