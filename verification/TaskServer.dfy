/**
 One server as a step system: handler threads accept commands and insert tasks
 under tasks_mtx, worker threads run them, every broadcast reaches the open
 WebSocket connections under their own lock. Steps of different threads
 interleave freely; `++task_counter` is one step here (see CounterRace).
 */
module TaskServer {
  import opened Text
  import opened Worker

  /** Where a worker thread is in runTask, with the pipe content it has not read yet. */
  datatype Pc =
    | Begin
    | CdNotify(directory: string)
    | CdComplete
    | FailComplete
    | Starting(pipe: string, status: int)
    | Reading(pipe: string, status: int)
    | Sending(chunk: string, pipe: string, status: int)
    | Completing(status: int)
    | Done

  /** A row of the task table and its worker. */
  datatype Record = Record(command: string, launch: Option<Launch>, output: string, running: bool, pc: Pc)

  /** A WebSocket connection: the broadcasts it was open for, what it received, whether a send failed. */
  datatype Subscriber = Subscriber(start: nat, stop: Option<nat>, received: seq<Event>, failed: bool)

  datatype Server = Server(
    dirs: Dirs,
    counter: nat,
    pending: map<string, string>,
    tasks: map<string, Record>,
    log: seq<Event>,
    subscribers: map<nat, Subscriber>)

  datatype Step =
    | Accept(command: string)
    | Insert(id: string)
    | Begins(id: string, launch: Launch)
    | Works(id: string, failing: set<nat>)
    | Notifies(text: string, failing: set<nat>)
    | Opens(subscriber: nat)
    | Closes(subscriber: nat)

  /** broadcast_ws: one lock around the sends; a failed send drops the message for that connection. */
  function Delivered(s: Subscriber, e: Event, fails: bool): Subscriber {
    if s.stop.Some? then s
    else if fails then s.(failed := true)
    else s.(received := s.received + [e])
  }

  function Broadcast(s: Server, e: Event, failing: set<nat>): Server {
    s.(log := s.log + [e],
       subscribers := map k | k in s.subscribers :: Delivered(s.subscribers[k], e, k in failing))
  }

  predicate Enabled(s: Server, step: Step) {
    match step
    case Accept(_) => true
    case Insert(id) => id in s.pending
    case Begins(id, launch) => id in s.tasks && s.tasks[id].pc.Begin? && Fits(s.tasks[id].command, launch)
    case Works(id, _) => id in s.tasks && !s.tasks[id].pc.Begin? && !s.tasks[id].pc.Done?
    case Notifies(_, _) => true
    case Opens(k) => k !in s.subscribers
    case Closes(k) => k in s.subscribers && s.subscribers[k].stop.None?
  }

  function NextId(s: Server): string { ToDecimal(s.counter + 1) }

  /** The worker's record after its next step. */
  function Advance(r: Record): Record
    requires !r.pc.Begin? && !r.pc.Done?
  {
    match r.pc
    case CdNotify(_) => r.(pc := CdComplete)
    case CdComplete => r.(pc := Done)
    case FailComplete => r.(pc := Done)
    case Starting(pipe, status) => r.(pc := Reading(pipe, status))
    case Reading(pipe, status) =>
      if pipe == "" then r.(running := false, pc := Completing(status))
      else r.(output := r.output + Chunk(pipe), pc := Sending(Chunk(pipe), pipe[|Chunk(pipe)|..], status))
    case Sending(_, pipe, status) => r.(pc := Reading(pipe, status))
    case Completing(_) => r.(pc := Done)
  }

  /** What that step broadcasts, if anything. */
  function Says(id: string, dir: string, r: Record): Option<Event>
    requires !r.pc.Begin? && !r.pc.Done?
  {
    match r.pc
    case CdNotify(directory) => Some(DirChange(id, directory))
    case CdComplete => Some(TaskComplete(id, 0))
    case FailComplete => Some(TaskComplete(id, -1))
    case Starting(_, _) => Some(TaskStart(id, r.command, dir))
    case Reading(_, _) => None
    case Sending(chunk, _, _) => Some(TaskOutput(id, chunk, dir))
    case Completing(status) => Some(TaskComplete(id, status))
  }

  /** The record once popen has answered, or `cd` has been recognised. */
  function Launched(r: Record, dirs: Dirs, launch: Launch): Record
    requires Fits(r.command, launch)
  {
    match launch
    case ChangeDir => r.(launch := Some(launch), running := false, pc := CdNotify(CdTarget(r.command, dirs)))
    case PopenFails => r.(launch := Some(launch), running := false, pc := FailComplete)
    case Pipe(content, status) => r.(launch := Some(launch), pc := Starting(content, status))
  }

  function Apply(s: Server, step: Step): Server
    requires Enabled(s, step)
  {
    match step
    case Accept(command) => s.(counter := s.counter + 1, pending := s.pending[NextId(s) := command])
    case Insert(id) =>
      s.(pending := s.pending - {id}, tasks := s.tasks[id := Record(s.pending[id], None, "", true, Begin)])
    case Begins(id, launch) => s.(tasks := s.tasks[id := Launched(s.tasks[id], s.dirs, launch)])
    case Works(id, failing) =>
      var said := Says(id, s.dirs.start, s.tasks[id]);
      var t := s.(tasks := s.tasks[id := Advance(s.tasks[id])]);
      if said.None? then t else Broadcast(t, said.value, failing)
    case Notifies(text, failing) => Broadcast(s, Notice(text), failing)
    case Opens(k) => s.(subscribers := s.subscribers[k := Subscriber(|s.log|, None, [], false)])
    case Closes(k) => s.(subscribers := s.subscribers[k := s.subscribers[k].(stop := Some(|s.log|))])
  }

  // ---------------------------------------------------------------- invariant

  predicate Concerns(e: Event, id: string) { !e.Notice? && e.id == id }

  /** The part of a broadcast log that concerns one task. */
  function TraceOf(log: seq<Event>, id: string): seq<Event> {
    if log == [] then [] else
    var init, last := log[..|log| - 1], log[|log| - 1];
    if Concerns(last, id) then TraceOf(init, id) + [last] else TraceOf(init, id)
  }

  /** The rest of the read loop: the pipe's chunks, then the completion. */
  function Streaming(id: string, dir: string, pipe: string, status: int): seq<Event> {
    Outputs(id, dir, Chunks(pipe)) + [TaskComplete(id, status)]
  }

  /** What the worker still has to broadcast. */
  function Remaining(id: string, dir: string, r: Record): seq<Event>
    requires !r.pc.Begin?
  {
    match r.pc
    case CdNotify(directory) => [DirChange(id, directory), TaskComplete(id, 0)]
    case CdComplete => [TaskComplete(id, 0)]
    case FailComplete => [TaskComplete(id, -1)]
    case Starting(pipe, status) => [TaskStart(id, r.command, dir)] + Streaming(id, dir, pipe, status)
    case Reading(pipe, status) => Streaming(id, dir, pipe, status)
    case Sending(chunk, pipe, status) => [TaskOutput(id, chunk, dir)] + Streaming(id, dir, pipe, status)
    case Completing(status) => [TaskComplete(id, status)]
    case Done => []
  }

  /** The concatenated payloads of a trace. */
  function Payload(trace: seq<Event>): string {
    if trace == [] then "" else
    var init, last := trace[..|trace| - 1], trace[|trace| - 1];
    if last.TaskOutput? then Payload(init) + last.chunk else Payload(init)
  }

  /** The chunk that is stored but not yet broadcast. */
  function InHand(r: Record): string {
    if r.pc.Sending? then r.pc.chunk else ""
  }

  predicate StillRuns(pc: Pc) {
    pc.Begin? || pc.Starting? || pc.Reading? || pc.Sending?
  }

  /** What is stored is what was broadcast, and the chunk in hand. */
  predicate OutputOk(r: Record, trace: seq<Event>) {
    r.output == if r.pc.Sending? then Payload(trace) + r.pc.chunk else Payload(trace)
  }

  /** What was broadcast and what remains make the task's full trace. */
  predicate TraceOk(id: string, r: Record, dirs: Dirs, trace: seq<Event>) {
    if r.pc.Begin? then r.launch.None? && trace == []
    else && r.launch.Some? && Fits(r.command, r.launch.value)
         && trace + Remaining(id, dirs.start, r) == FullTrace(id, r.command, dirs, r.launch.value)
  }

  predicate TaskOk(id: string, r: Record, dirs: Dirs, trace: seq<Event>) {
    (r.running <==> StillRuns(r.pc)) && OutputOk(r, trace) && TraceOk(id, r, dirs, trace)
  }

  ghost predicate Issued(s: Server, id: string) {
    exists n: nat :: 1 <= n <= s.counter && id == ToDecimal(n)
  }

  function End(s: Subscriber, log: seq<Event>): nat {
    if s.stop.Some? then s.stop.value else |log|
  }

  predicate SubscriberOk(k: Subscriber, log: seq<Event>) {
    && k.start <= End(k, log) <= |log|
    && (!k.failed ==> k.received == log[k.start..End(k, log)])
  }

  ghost predicate IdsOk(s: Server) {
    && s.pending.Keys !! s.tasks.Keys
    && (forall id :: id in s.pending || id in s.tasks ==> Issued(s, id))
  }

  /** Only inserted tasks broadcast. */
  predicate LogOk(log: seq<Event>, tasks: map<string, Record>) {
    forall i :: 0 <= i < |log| && !log[i].Notice? ==> log[i].id in tasks
  }

  predicate TasksOk(tasks: map<string, Record>, dirs: Dirs, log: seq<Event>) {
    forall id <- tasks :: TaskOk(id, tasks[id], dirs, TraceOf(log, id))
  }

  predicate SubscribersOk(subscribers: map<nat, Subscriber>, log: seq<Event>) {
    forall k <- subscribers :: SubscriberOk(subscribers[k], log)
  }

  ghost predicate Inv(s: Server) {
    IdsOk(s) && LogOk(s.log, s.tasks) && TasksOk(s.tasks, s.dirs, s.log) && SubscribersOk(s.subscribers, s.log)
  }

  predicate Init(s: Server) {
    && s.dirs.start == START_DIR
    && s.counter == 0 && s.pending == map[] && s.tasks == map[] && s.log == [] && s.subscribers == map[]
  }

  // ------------------------------------------------------------- preservation

  /** The id of a new task was never used. */
  lemma NextIdFresh(s: Server)
    requires Inv(s)
    ensures NextId(s) !in s.pending && NextId(s) !in s.tasks
  {
    if Issued(s, NextId(s)) {
      var n: nat :| 1 <= n <= s.counter && NextId(s) == ToDecimal(n);
      DecimalInjective(n, s.counter + 1);
    }
  }

  lemma IssuedGrows(s: Server, t: Server, id: string)
    requires Issued(s, id) && s.counter <= t.counter
    ensures Issued(t, id)
  {
    var n: nat :| 1 <= n <= s.counter && id == ToDecimal(n);
    assert 1 <= n <= t.counter;
  }

  lemma {:induction false} NoTraceOfUnknown(log: seq<Event>, id: string)
    requires forall i :: 0 <= i < |log| ==> !Concerns(log[i], id)
    ensures TraceOf(log, id) == []
  {
    if log != [] {
      NoTraceOfUnknown(log[..|log| - 1], id);
    }
  }

  lemma TraceAppend(log: seq<Event>, e: Event, id: string)
    ensures Concerns(e, id) ==> TraceOf(log + [e], id) == TraceOf(log, id) + [e]
    ensures !Concerns(e, id) ==> TraceOf(log + [e], id) == TraceOf(log, id)
  {
    assert (log + [e])[..|log|] == log;
  }

  lemma PayloadAppend(trace: seq<Event>, e: Event)
    ensures Payload(trace + [e]) == if e.TaskOutput? then Payload(trace) + e.chunk else Payload(trace)
  {
    assert (trace + [e])[..|trace|] == trace;
  }

  lemma OutputsFirst(id: string, dir: string, pipe: string)
    requires pipe != ""
    ensures Outputs(id, dir, Chunks(pipe))
         == [TaskOutput(id, Chunk(pipe), dir)] + Outputs(id, dir, Chunks(pipe[|Chunk(pipe)|..]))
  {
  }

  lemma LaunchKeepsTask(id: string, r: Record, dirs: Dirs, launch: Launch)
    requires TaskOk(id, r, dirs, []) && r.pc.Begin? && Fits(r.command, launch)
    ensures TaskOk(id, Launched(r, dirs, launch), dirs, [])
  {
    var r' := Launched(r, dirs, launch);
    assert [] + Remaining(id, dirs.start, r') == Remaining(id, dirs.start, r');
    if launch.Pipe? {
      Associate([TaskStart(id, r.command, dirs.start)], Outputs(id, dirs.start, Chunks(launch.content)),
                [TaskComplete(id, launch.status)]);
    }
  }

  lemma StreamingStarts(id: string, dir: string, pipe: string, status: int)
    ensures Streaming(id, dir, "", status) == [TaskComplete(id, status)]
    ensures pipe != "" ==>
      Streaming(id, dir, pipe, status)
      == [TaskOutput(id, Chunk(pipe), dir)] + Streaming(id, dir, pipe[|Chunk(pipe)|..], status)
  {
    if pipe != "" {
      OutputsFirst(id, dir, pipe);
      Associate([TaskOutput(id, Chunk(pipe), dir)], Outputs(id, dir, Chunks(pipe[|Chunk(pipe)|..])),
                [TaskComplete(id, status)]);
    }
  }

  lemma ReadLeavesRemaining(id: string, dir: string, r: Record)
    requires r.pc.Reading?
    ensures Remaining(id, dir, Advance(r)) == Remaining(id, dir, r)
  {
    StreamingStarts(id, dir, r.pc.pipe, r.pc.status);
  }

  /** A silent step: the end of the pipe, or a chunk stored and taken in hand. */
  lemma ReadKeepsTask(id: string, r: Record, dirs: Dirs, trace: seq<Event>)
    requires TaskOk(id, r, dirs, trace) && r.pc.Reading?
    ensures TaskOk(id, Advance(r), dirs, trace)
  {
    ReadLeavesRemaining(id, dirs.start, r);
  }

  lemma FirstRemains(id: string, dir: string, r: Record)
    requires !r.pc.Begin? && !r.pc.Done? && !r.pc.Reading?
    ensures Says(id, dir, r).Some? && Concerns(Says(id, dir, r).value, id)
    ensures Remaining(id, dir, r) == [Says(id, dir, r).value] + Remaining(id, dir, Advance(r))
  {
  }

  lemma SayKeepsOutput(id: string, dir: string, r: Record, trace: seq<Event>)
    requires OutputOk(r, trace) && !r.pc.Begin? && !r.pc.Done? && !r.pc.Reading?
    ensures Says(id, dir, r).Some? && OutputOk(Advance(r), trace + [Says(id, dir, r).value])
  {
    PayloadAppend(trace, Says(id, dir, r).value);
  }

  lemma SayKeepsTrace(id: string, r: Record, dirs: Dirs, trace: seq<Event>)
    requires TraceOk(id, r, dirs, trace) && !r.pc.Begin? && !r.pc.Done? && !r.pc.Reading?
    ensures Says(id, dirs.start, r).Some? && TraceOk(id, Advance(r), dirs, trace + [Says(id, dirs.start, r).value])
  {
    FirstRemains(id, dirs.start, r);
    Associate(trace, [Says(id, dirs.start, r).value], Remaining(id, dirs.start, Advance(r)));
  }

  /** A broadcasting step takes the first of what remained. */
  lemma SayKeepsTask(id: string, r: Record, dirs: Dirs, trace: seq<Event>)
    requires TaskOk(id, r, dirs, trace) && !r.pc.Begin? && !r.pc.Done? && !r.pc.Reading?
    ensures Says(id, dirs.start, r).Some?
    ensures TaskOk(id, Advance(r), dirs, trace + [Says(id, dirs.start, r).value])
  {
    SayKeepsOutput(id, dirs.start, r, trace);
    SayKeepsTrace(id, r, dirs, trace);
  }

  lemma DeliveryKeepsSubscriber(k: Subscriber, log: seq<Event>, e: Event, fails: bool)
    requires SubscriberOk(k, log)
    ensures SubscriberOk(Delivered(k, e, fails), log + [e])
  {
    if k.stop.Some? {
      assert (log + [e])[k.start..k.stop.value] == log[k.start..k.stop.value];
    } else {
      assert (log + [e])[k.start..|log| + 1] == log[k.start..|log|] + [e];
    }
  }

  predicate Known(s: Server, id: string) {
    id in s.pending || id in s.tasks
  }

  /** The command held for an id, be its task inserted yet or not. */
  function CommandOf(s: Server, id: string): string
    requires Known(s, id)
  {
    if id in s.tasks then s.tasks[id].command else s.pending[id]
  }

  /** An id stays known and keeps its command. */
  ghost predicate KeepsCommands(s: Server, t: Server) {
    forall id :: Known(s, id) ==> Known(t, id) && CommandOf(t, id) == CommandOf(s, id)
  }

  /** A record goes on: its launch stays what it was, stopped stays stopped. */
  predicate GoesOn(r: Record, r': Record) {
    (r.launch.Some? ==> r'.launch == r.launch) && (r'.running ==> r.running)
  }

  /** What one step never takes back: ids keep their commands, tasks stay and go on, the log only grows. */
  ghost predicate Evolves(s: Server, t: Server) {
    && KeepsCommands(s, t)
    && (forall id <- s.tasks :: id in t.tasks && GoesOn(s.tasks[id], t.tasks[id]))
    && s.log <= t.log && t.dirs == s.dirs
  }

  lemma BroadcastKeepsSubscribers(s: Server, e: Event, failing: set<nat>)
    requires SubscribersOk(s.subscribers, s.log)
    ensures SubscribersOk(Broadcast(s, e, failing).subscribers, s.log + [e])
  {
    forall k <- s.subscribers
      ensures SubscriberOk(Delivered(s.subscribers[k], e, k in failing), s.log + [e])
    {
      DeliveryKeepsSubscriber(s.subscribers[k], s.log, e, k in failing);
    }
  }

  /** A task that is not the one that says e hears nothing of it. */
  lemma OtherTaskKept(id: string, r: Record, dirs: Dirs, log: seq<Event>, e: Event)
    requires TaskOk(id, r, dirs, TraceOf(log, id)) && !Concerns(e, id)
    ensures TaskOk(id, r, dirs, TraceOf(log + [e], id))
  {
    TraceAppend(log, e, id);
  }

  /** One task says e, and its record keeps up. */
  lemma BroadcastKeepsTasks(tasks: map<string, Record>, dirs: Dirs, log: seq<Event>, e: Event, id: string, r: Record)
    requires TasksOk(tasks, dirs, log) && id in tasks && Concerns(e, id)
    requires TaskOk(id, r, dirs, TraceOf(log, id) + [e])
    ensures TasksOk(tasks[id := r], dirs, log + [e])
  {
    TraceAppend(log, e, id);
    forall i <- tasks[id := r]
      ensures TaskOk(i, tasks[id := r][i], dirs, TraceOf(log + [e], i))
    {
      if i != id {
        OtherTaskKept(i, tasks[i], dirs, log, e);
      }
    }
  }

  lemma NoticeKeepsTasks(tasks: map<string, Record>, dirs: Dirs, log: seq<Event>, text: string)
    requires TasksOk(tasks, dirs, log)
    ensures TasksOk(tasks, dirs, log + [Notice(text)])
  {
    forall i <- tasks
      ensures TaskOk(i, tasks[i], dirs, TraceOf(log + [Notice(text)], i))
    {
      OtherTaskKept(i, tasks[i], dirs, log, Notice(text));
    }
  }

  lemma IdsStayOk(s: Server, t: Server)
    requires IdsOk(s) && t.counter == s.counter
    requires t.pending.Keys !! t.tasks.Keys && t.pending.Keys + t.tasks.Keys == s.pending.Keys + s.tasks.Keys
    ensures IdsOk(t)
  {
    forall i | i in t.pending || i in t.tasks
      ensures Issued(t, i)
    {
      assert i in t.pending.Keys + t.tasks.Keys;
      IssuedGrows(s, t, i);
    }
  }

  lemma AcceptKeepsInv(s: Server, command: string)
    requires Inv(s)
    ensures Inv(Apply(s, Accept(command))) && Evolves(s, Apply(s, Accept(command)))
  {
    var t := Apply(s, Accept(command));
    NextIdFresh(s);
    forall i | i in t.pending || i in t.tasks
      ensures Issued(t, i)
    {
      if i == NextId(s) {
        assert 1 <= t.counter <= t.counter && i == ToDecimal(t.counter);
      } else {
        IssuedGrows(s, t, i);
      }
    }
  }

  lemma InsertKeepsTasks(s: Server, id: string)
    requires LogOk(s.log, s.tasks) && TasksOk(s.tasks, s.dirs, s.log) && id in s.pending && id !in s.tasks
    ensures TasksOk(Apply(s, Insert(id)).tasks, s.dirs, s.log)
  {
    NoTraceOfUnknown(s.log, id);
  }

  lemma LogOkGrows(log: seq<Event>, tasks: map<string, Record>, more: map<string, Record>)
    requires LogOk(log, tasks) && tasks.Keys <= more.Keys
    ensures LogOk(log, more)
  {
    forall i | 0 <= i < |log| && !log[i].Notice?
      ensures log[i].id in more
    {
      assert log[i].id in tasks.Keys;
    }
  }

  lemma InsertEvolves(s: Server, id: string)
    requires id in s.pending && id !in s.tasks
    ensures Evolves(s, Apply(s, Insert(id)))
  {
  }

  lemma InsertKeepsInv(s: Server, id: string)
    requires Inv(s) && id in s.pending
    ensures Inv(Apply(s, Insert(id))) && Evolves(s, Apply(s, Insert(id)))
  {
    var t := Apply(s, Insert(id));
    assert t.pending.Keys == s.pending.Keys - {id} && t.tasks.Keys == s.tasks.Keys + {id};
    IdsStayOk(s, t);
    InsertKeepsTasks(s, id);
    LogOkGrows(s.log, s.tasks, t.tasks);
    InsertEvolves(s, id);
  }

  /** Replacing a task's record by one that is as good keeps the table good. */
  lemma TaskReplaced(tasks: map<string, Record>, dirs: Dirs, log: seq<Event>, id: string, r: Record)
    requires TasksOk(tasks, dirs, log) && id in tasks && TaskOk(id, r, dirs, TraceOf(log, id))
    ensures TasksOk(tasks[id := r], dirs, log)
  {
    forall i <- tasks[id := r]
      ensures TaskOk(i, tasks[id := r][i], dirs, TraceOf(log, i))
    {
      if i != id {
        assert TaskOk(i, tasks[i], dirs, TraceOf(log, i));
      }
    }
  }

  lemma BeginKeepsTasks(s: Server, id: string, launch: Launch)
    requires TasksOk(s.tasks, s.dirs, s.log) && Enabled(s, Begins(id, launch))
    ensures TasksOk(s.tasks[id := Launched(s.tasks[id], s.dirs, launch)], s.dirs, s.log)
  {
    assert TaskOk(id, s.tasks[id], s.dirs, TraceOf(s.log, id));
    LaunchKeepsTask(id, s.tasks[id], s.dirs, launch);
    TaskReplaced(s.tasks, s.dirs, s.log, id, Launched(s.tasks[id], s.dirs, launch));
  }

  lemma BeginEvolves(s: Server, id: string, launch: Launch)
    requires Enabled(s, Begins(id, launch)) && s.tasks[id].launch.None? && s.tasks[id].running
    ensures Evolves(s, Apply(s, Begins(id, launch)))
  {
  }

  lemma BeginKeepsInv(s: Server, id: string, launch: Launch)
    requires Inv(s) && Enabled(s, Begins(id, launch))
    ensures Inv(Apply(s, Begins(id, launch))) && Evolves(s, Apply(s, Begins(id, launch)))
  {
    var t := Apply(s, Begins(id, launch));
    assert t.tasks.Keys == s.tasks.Keys;
    assert TaskOk(id, s.tasks[id], s.dirs, TraceOf(s.log, id));
    BeginEvolves(s, id, launch);
    IdsStayOk(s, t);
    LogOkGrows(s.log, s.tasks, t.tasks);
    BeginKeepsTasks(s, id, launch);
  }

  lemma ReadKeepsTasks(s: Server, id: string)
    requires TasksOk(s.tasks, s.dirs, s.log) && id in s.tasks && s.tasks[id].pc.Reading?
    ensures TasksOk(s.tasks[id := Advance(s.tasks[id])], s.dirs, s.log)
  {
    ReadKeepsTask(id, s.tasks[id], s.dirs, TraceOf(s.log, id));
    TaskReplaced(s.tasks, s.dirs, s.log, id, Advance(s.tasks[id]));
  }

  lemma SayKeepsTasks(s: Server, id: string)
    requires TasksOk(s.tasks, s.dirs, s.log) && id in s.tasks
    requires !s.tasks[id].pc.Begin? && !s.tasks[id].pc.Done? && !s.tasks[id].pc.Reading?
    ensures Says(id, s.dirs.start, s.tasks[id]).Some?
    ensures TasksOk(s.tasks[id := Advance(s.tasks[id])], s.dirs, s.log + [Says(id, s.dirs.start, s.tasks[id]).value])
  {
    var r := s.tasks[id];
    FirstRemains(id, s.dirs.start, r);
    SayKeepsTask(id, r, s.dirs, TraceOf(s.log, id));
    BroadcastKeepsTasks(s.tasks, s.dirs, s.log, Says(id, s.dirs.start, r).value, id, Advance(r));
  }

  lemma WorkEffect(s: Server, id: string, failing: set<nat>)
    requires Enabled(s, Works(id, failing))
    ensures var t, said := Apply(s, Works(id, failing)), Says(id, s.dirs.start, s.tasks[id]);
            && t.dirs == s.dirs && t.tasks == s.tasks[id := Advance(s.tasks[id])]
            && t.log == if said.None? then s.log else s.log + [said.value]
    ensures s.tasks[id].pc.Reading? <==> Says(id, s.dirs.start, s.tasks[id]).None?
  {
  }

  lemma WorkKeepsTasks(s: Server, id: string, failing: set<nat>)
    requires TasksOk(s.tasks, s.dirs, s.log) && Enabled(s, Works(id, failing))
    ensures TasksOk(Apply(s, Works(id, failing)).tasks, s.dirs, Apply(s, Works(id, failing)).log)
  {
    WorkEffect(s, id, failing);
    if s.tasks[id].pc.Reading? {
      ReadKeepsTasks(s, id);
    } else {
      SayKeepsTasks(s, id);
    }
  }

  lemma WorkDelivers(s: Server, id: string, failing: set<nat>)
    requires LogOk(s.log, s.tasks) && SubscribersOk(s.subscribers, s.log) && Enabled(s, Works(id, failing))
    ensures var t := Apply(s, Works(id, failing));
            LogOk(t.log, t.tasks) && SubscribersOk(t.subscribers, t.log)
  {
    var r := s.tasks[id];
    var said := Says(id, s.dirs.start, r);
    if said.Some? {
      FirstRemains(id, s.dirs.start, r);
      BroadcastKeepsSubscribers(s, said.value, failing);
    }
  }

  lemma WorkEvolves(s: Server, id: string, failing: set<nat>)
    requires Enabled(s, Works(id, failing))
    ensures var t := Apply(s, Works(id, failing));
            && t.tasks.Keys == s.tasks.Keys && t.pending == s.pending && t.counter == s.counter
            && Evolves(s, t)
  {
    var r := s.tasks[id];
    assert Advance(r).command == r.command && (Advance(r).running ==> r.running);
    var t := Apply(s, Works(id, failing));
    assert t.tasks == s.tasks[id := Advance(r)];
    assert t.tasks.Keys == s.tasks.Keys;
  }

  lemma WorkKeepsInv(s: Server, id: string, failing: set<nat>)
    requires Inv(s) && Enabled(s, Works(id, failing))
    ensures Inv(Apply(s, Works(id, failing))) && Evolves(s, Apply(s, Works(id, failing)))
  {
    WorkEvolves(s, id, failing);
    WorkDelivers(s, id, failing);
    WorkKeepsTasks(s, id, failing);
    IdsStayOk(s, Apply(s, Works(id, failing)));
  }

  lemma NoticeKeepsInv(s: Server, text: string, failing: set<nat>)
    requires Inv(s)
    ensures Inv(Apply(s, Notifies(text, failing))) && Evolves(s, Apply(s, Notifies(text, failing)))
  {
    IdsStayOk(s, Apply(s, Notifies(text, failing)));
    BroadcastKeepsSubscribers(s, Notice(text), failing);
    NoticeKeepsTasks(s.tasks, s.dirs, s.log, text);
  }

  lemma SubscriptionKeepsInv(s: Server, step: Step)
    requires Inv(s) && Enabled(s, step) && (step.Opens? || step.Closes?)
    ensures Inv(Apply(s, step)) && Evolves(s, Apply(s, step))
  {
    IdsStayOk(s, Apply(s, step));
  }

  /** Every step of every thread keeps the invariant and takes nothing back. */
  lemma StepKeepsInv(s: Server, step: Step)
    requires Inv(s) && Enabled(s, step)
    ensures Inv(Apply(s, step)) && Evolves(s, Apply(s, step))
  {
    match step
    case Accept(command) => AcceptKeepsInv(s, command);
    case Insert(id) => InsertKeepsInv(s, id);
    case Begins(id, launch) => BeginKeepsInv(s, id, launch);
    case Works(id, failing) => WorkKeepsInv(s, id, failing);
    case Notifies(text, failing) => NoticeKeepsInv(s, text, failing);
    case Opens(_) => SubscriptionKeepsInv(s, step);
    case Closes(_) => SubscriptionKeepsInv(s, step);
  }

  // ------------------------------------------------------------- every run

  predicate ValidRun(s: Server, steps: seq<Step>)
    decreases |steps|
  {
    steps == [] || (Enabled(s, steps[0]) && ValidRun(Apply(s, steps[0]), steps[1..]))
  }

  function Run(s: Server, steps: seq<Step>): Server
    requires ValidRun(s, steps)
    decreases |steps|
  {
    if steps == [] then s else Run(Apply(s, steps[0]), steps[1..])
  }

  /** The invariant holds in every interleaving. */
  lemma {:induction false} RunKeepsInv(s: Server, steps: seq<Step>)
    requires Inv(s) && ValidRun(s, steps)
    ensures Inv(Run(s, steps)) && Evolves(s, Run(s, steps))
    decreases |steps|
  {
    if steps != [] {
      var s1 := Apply(s, steps[0]);
      StepKeepsInv(s, steps[0]);
      RunKeepsInv(s1, steps[1..]);
      EvolvesTransitive(s, s1, Run(s, steps));
    }
  }

  lemma EvolvesTransitive(s: Server, t: Server, u: Server)
    requires Evolves(s, t) && Evolves(t, u)
    ensures Evolves(s, u)
  {
  }

  lemma InitInv(s: Server)
    requires Init(s)
    ensures Inv(s)
  {
  }

  /** A run is its first steps, the next one, and the rest. */
  lemma {:induction false} RunSplit(s: Server, steps: seq<Step>, j: nat)
    requires ValidRun(s, steps) && j < |steps|
    ensures ValidRun(s, steps[..j]) && Enabled(Run(s, steps[..j]), steps[j])
    ensures ValidRun(Apply(Run(s, steps[..j]), steps[j]), steps[j + 1..])
    ensures Run(s, steps) == Run(Apply(Run(s, steps[..j]), steps[j]), steps[j + 1..])
    decreases j
  {
    if j > 0 {
      RunSplit(Apply(s, steps[0]), steps[1..], j - 1);
      assert steps[..j][1..] == steps[1..][..j - 1] && steps[1..][j..] == steps[j + 1..];
    }
  }

  lemma RunAround(s: Server, steps: seq<Step>, j: nat)
    requires Init(s) && ValidRun(s, steps) && j < |steps|
    ensures ValidRun(s, steps[..j]) && Enabled(Run(s, steps[..j]), steps[j]) && Inv(Run(s, steps[..j]))
    ensures Evolves(Apply(Run(s, steps[..j]), steps[j]), Run(s, steps))
  {
    InitInv(s);
    RunSplit(s, steps, j);
    RunKeepsInv(s, steps[..j]);
    StepKeepsInv(Run(s, steps[..j]), steps[j]);
    RunKeepsInv(Apply(Run(s, steps[..j]), steps[j]), steps[j + 1..]);
  }

  function Accepts(steps: seq<Step>): nat {
    if steps == [] then 0 else (if steps[0].Accept? then 1 else 0) + Accepts(steps[1..])
  }

  lemma {:induction false} CounterCounts(s: Server, steps: seq<Step>)
    requires ValidRun(s, steps)
    ensures Run(s, steps).counter == s.counter + Accepts(steps)
    decreases |steps|
  {
    if steps != [] {
      CounterCounts(Apply(s, steps[0]), steps[1..]);
    }
  }

  /**
   The command that was posted is the command of the task, whatever else happens before
   and after: the m-th accepted command has id m, and in every later state that id is
   known and stands for that command, be its task inserted yet or not.
   */
  lemma TaskRunsItsCommand(s: Server, steps: seq<Step>, j: nat)
    requires Init(s) && ValidRun(s, steps) && j < |steps| && steps[j].Accept?
    ensures ValidRun(s, steps[..j])
    ensures var id, t := NextId(Run(s, steps[..j])), Run(s, steps);
            && id == ToDecimal(Accepts(steps[..j]) + 1)
            && (id in t.pending || id in t.tasks)
            && (id in t.pending ==> id !in t.tasks && t.pending[id] == steps[j].command)
            && (id in t.tasks ==> t.tasks[id].command == steps[j].command)
  {
    RunAround(s, steps, j);
    CounterCounts(s, steps[..j]);
    InitInv(s);
    RunKeepsInv(s, steps);
    var before := Run(s, steps[..j]);
    NextIdFresh(before);
    assert Known(Apply(before, steps[j]), NextId(before));
    assert Known(Run(s, steps), NextId(before));
  }

  /** ... and the task is run the way the operating system launched it. */
  lemma TaskRunsAsLaunched(s: Server, steps: seq<Step>, j: nat)
    requires Init(s) && ValidRun(s, steps) && j < |steps| && steps[j].Begins?
    ensures steps[j].id in Run(s, steps).tasks && Run(s, steps).tasks[steps[j].id].launch == Some(steps[j].launch)
  {
    RunAround(s, steps, j);
    var t := Apply(Run(s, steps[..j]), steps[j]);
    assert t.tasks[steps[j].id].launch == Some(steps[j].launch);
  }

  // --------------------------------------------------------------- to the end

  /** How many steps a worker has before it: two a chunk. */
  function StepsLeft(pc: Pc): nat
    requires !pc.Begin?
  {
    match pc
    case CdNotify(_) => 2
    case CdComplete => 1
    case FailComplete => 1
    case Starting(pipe, _) => 3 + 2 * |Chunks(pipe)|
    case Reading(pipe, _) => 2 + 2 * |Chunks(pipe)|
    case Sending(_, pipe, _) => 3 + 2 * |Chunks(pipe)|
    case Completing(_) => 1
    case Done => 0
  }

  lemma {:induction false} AdvanceCounts(r: Record)
    requires !r.pc.Begin? && !r.pc.Done?
    ensures !Advance(r).pc.Begin? && StepsLeft(Advance(r).pc) == StepsLeft(r.pc) - 1
  {
    if r.pc.Reading? && r.pc.pipe != "" {
      ChunksStart(r.pc.pipe);
    }
  }

  function Alone(id: string, n: nat): (steps: seq<Step>)
    ensures |steps| == n && forall i :: 0 <= i < n ==> steps[i] == Works(id, {})
  {
    seq(n, _ => Works(id, {}))
  }

  lemma WorkerStep(s: Server, id: string)
    requires Inv(s) && id in s.tasks && !s.tasks[id].pc.Begin? && !s.tasks[id].pc.Done?
    ensures var t := Apply(s, Works(id, {}));
            && Inv(t) && id in t.tasks && !t.tasks[id].pc.Begin?
            && StepsLeft(t.tasks[id].pc) == StepsLeft(s.tasks[id].pc) - 1
  {
    WorkEffect(s, id, {});
    WorkKeepsInv(s, id, {});
    AdvanceCounts(s.tasks[id]);
  }

  lemma AloneStarts(id: string, n: nat)
    requires n > 0
    ensures Alone(id, n)[0] == Works(id, {}) && Alone(id, n)[1..] == Alone(id, n - 1)
  {
  }

  lemma {:induction false} WorkerRuns(s: Server, id: string, n: nat)
    requires Inv(s) && id in s.tasks && !s.tasks[id].pc.Begin? && n == StepsLeft(s.tasks[id].pc)
    ensures ValidRun(s, Alone(id, n)) && id in Run(s, Alone(id, n)).tasks && Run(s, Alone(id, n)).tasks[id].pc.Done?
    decreases n
  {
    if n > 0 {
      WorkerStep(s, id);
      AloneStarts(id, n);
      WorkerRuns(Apply(s, Works(id, {})), id, n - 1);
    }
  }

  /** The task has run to its end: stopped, its full trace broadcast, all its output stored. */
  ghost predicate Finished(t: Server, id: string, command: string, launch: Launch) {
    && id in t.tasks && t.tasks[id].command == command && !t.tasks[id].running && Fits(command, launch)
    && TraceOf(t.log, id) == FullTrace(id, command, t.dirs, launch)
    && (launch.Pipe? ==> t.tasks[id].output == launch.content)
  }

  /** From any state on, a launched task can run to its end. */
  lemma WorkerFinishes(s: Server, id: string)
    requires Inv(s) && id in s.tasks && s.tasks[id].launch.Some?
    ensures !s.tasks[id].pc.Begin?
    ensures var steps := Alone(id, StepsLeft(s.tasks[id].pc));
            ValidRun(s, steps) && Finished(Run(s, steps), id, s.tasks[id].command, s.tasks[id].launch.value)
  {
    assert TaskOk(id, s.tasks[id], s.dirs, TraceOf(s.log, id));
    var n := StepsLeft(s.tasks[id].pc);
    WorkerRuns(s, id, n);
    RunKeepsInv(s, Alone(id, n));
    FinishedAs(s, Run(s, Alone(id, n)), id);
  }

  lemma FinishedAs(s: Server, t: Server, id: string)
    requires Inv(t) && Evolves(s, t) && id in s.tasks && s.tasks[id].launch.Some?
    requires id in t.tasks && t.tasks[id].pc.Done?
    ensures Finished(t, id, s.tasks[id].command, s.tasks[id].launch.value)
  {
    assert Known(s, id);
    FinishedTask(t, id);
  }

  lemma FinishedTask(t: Server, id: string)
    requires Inv(t) && id in t.tasks && t.tasks[id].pc.Done?
    ensures var r := t.tasks[id];
            && !r.running && r.launch.Some? && Fits(r.command, r.launch.value)
            && TraceOf(t.log, id) == FullTrace(id, r.command, t.dirs, r.launch.value)
            && (r.launch.value.Pipe? ==> r.output == r.launch.value.content)
  {
    var r := t.tasks[id];
    assert TaskOk(id, r, t.dirs, TraceOf(t.log, id));
    assert Remaining(id, t.dirs.start, r) == [];
    assert TraceOf(t.log, id) + [] == TraceOf(t.log, id);
    StoppedMeansComplete(t, id);
  }

  lemma RunPrepend(s: Server, step: Step, steps: seq<Step>)
    requires Enabled(s, step) && ValidRun(Apply(s, step), steps)
    ensures ValidRun(s, [step] + steps) && Run(s, [step] + steps) == Run(Apply(s, step), steps)
  {
    assert ([step] + steps)[1..] == steps;
  }

  /** From any state on, whatever the server is doing, a new command can be accepted, launched in any way, and run to its end. */
  lemma CommandCanRun(s: Server, command: string, launch: Launch) returns (steps: seq<Step>)
    requires Inv(s) && Fits(command, launch)
    ensures |steps| >= 3 && steps[0] == Accept(command) && steps[1] == Insert(NextId(s))
    ensures steps[2] == Begins(NextId(s), launch)
    ensures ValidRun(s, steps) && Finished(Run(s, steps), NextId(s), command, launch)
  {
    var id := NextId(s);
    NextIdFresh(s);
    var s1 := Apply(s, Accept(command));
    StepKeepsInv(s, Accept(command));
    var s2 := Apply(s1, Insert(id));
    StepKeepsInv(s1, Insert(id));
    var s3 := Apply(s2, Begins(id, launch));
    StepKeepsInv(s2, Begins(id, launch));
    WorkerFinishes(s3, id);
    var work := Alone(id, StepsLeft(s3.tasks[id].pc));
    RunPrepend(s2, Begins(id, launch), work);
    RunPrepend(s1, Insert(id), [Begins(id, launch)] + work);
    RunPrepend(s, Accept(command), [Insert(id)] + ([Begins(id, launch)] + work));
    steps := [Accept(command)] + ([Insert(id)] + ([Begins(id, launch)] + work));
  }

  /** At any time a new connection can be opened and an open one closed. */
  lemma CanConnect(s: Server, k: nat)
    requires k !in s.subscribers
    ensures Enabled(s, Opens(k)) && Enabled(Apply(s, Opens(k)), Closes(k))
    ensures forall text, failing :: Enabled(Apply(s, Opens(k)), Notifies(text, failing))
  {
  }

  // -------------------------------------------------------------- what is heard

  /** What a step broadcasts: what it adds to the log. */
  function Said(s: Server, step: Step): Option<Event>
    requires Enabled(s, step)
  {
    var log := Apply(s, step).log;
    if |log| > |s.log| then Some(log[|s.log|]) else None
  }

  function FailingOf(step: Step): set<nat> {
    match step
    case Works(_, failing) => failing
    case Notifies(_, failing) => failing
    case _ => {}
  }

  /** What a connection that is open all the while gets of some steps: every broadcast whose send did not fail. */
  function Heard(s: Server, steps: seq<Step>, k: nat): seq<Event>
    requires ValidRun(s, steps)
    decreases |steps|
  {
    if steps == [] then [] else
    var rest := Heard(Apply(s, steps[0]), steps[1..], k);
    if Said(s, steps[0]).Some? && k !in FailingOf(steps[0]) then [Said(s, steps[0]).value] + rest else rest
  }

  /** A notice is broadcast as it is, and changes nothing else of the server. */
  lemma NoticeSaid(s: Server, text: string, failing: set<nat>)
    ensures Said(s, Notifies(text, failing)) == Some(Notice(text))
    ensures Apply(s, Notifies(text, failing)).tasks == s.tasks
  {
  }

  lemma StepHeard(s: Server, step: Step, k: nat)
    requires Enabled(s, step) && k in s.subscribers && s.subscribers[k].stop.None? && step != Closes(k)
    ensures k in Apply(s, step).subscribers
    ensures var sub, sub' := s.subscribers[k], Apply(s, step).subscribers[k];
            && sub'.stop.None? && sub'.start == sub.start
            && sub'.received == (if Said(s, step).Some? && k !in FailingOf(step)
                                 then sub.received + [Said(s, step).value] else sub.received)
            && (sub'.failed <==> sub.failed || (Said(s, step).Some? && k in FailingOf(step)))
  {
  }

  /** Some broadcast of these steps could not be sent to this connection. */
  ghost predicate SomeSendFails(s: Server, steps: seq<Step>, k: nat)
    requires ValidRun(s, steps)
    decreases |steps|
  {
    steps != [] && ((Said(s, steps[0]).Some? && k in FailingOf(steps[0])) || SomeSendFails(Apply(s, steps[0]), steps[1..], k))
  }

  /** An open connection hears every broadcast but those whose send fails; exactly such a send marks it as failed. */
  lemma {:induction false} OpenHears(s: Server, steps: seq<Step>, k: nat)
    requires ValidRun(s, steps) && k in s.subscribers && s.subscribers[k].stop.None?
    requires forall i :: 0 <= i < |steps| ==> steps[i] != Closes(k)
    ensures k in Run(s, steps).subscribers
    ensures Run(s, steps).subscribers[k].received == s.subscribers[k].received + Heard(s, steps, k)
    ensures Run(s, steps).subscribers[k].failed <==> s.subscribers[k].failed || SomeSendFails(s, steps, k)
    decreases |steps|
  {
    if steps != [] {
      StepHeard(s, steps[0], k);
      OpenHears(Apply(s, steps[0]), steps[1..], k);
    }
  }

  /** A closed one hears nothing any more. */
  lemma {:induction false} ClosedHearsNothing(s: Server, steps: seq<Step>, k: nat)
    requires ValidRun(s, steps) && k in s.subscribers && s.subscribers[k].stop.Some?
    ensures k in Run(s, steps).subscribers && Run(s, steps).subscribers[k] == s.subscribers[k]
    decreases |steps|
  {
    if steps != [] {
      ClosedHearsNothing(Apply(s, steps[0]), steps[1..], k);
    }
  }

  /** From its opening to its closing a connection hears what is broadcast, and nothing before or after. */
  lemma SubscriberHears(s: Server, k: nat, steps: seq<Step>, later: seq<Step>)
    requires Enabled(s, Opens(k)) && ValidRun(Apply(s, Opens(k)), steps)
    requires forall i :: 0 <= i < |steps| ==> steps[i] != Closes(k)
    requires var t := Run(Apply(s, Opens(k)), steps); Enabled(t, Closes(k)) && ValidRun(Apply(t, Closes(k)), later)
    ensures var end := Run(Apply(Run(Apply(s, Opens(k)), steps), Closes(k)), later);
            && k in end.subscribers && end.subscribers[k].received == Heard(Apply(s, Opens(k)), steps, k)
            && (end.subscribers[k].failed <==> SomeSendFails(Apply(s, Opens(k)), steps, k))
  {
    var t := Run(Apply(s, Opens(k)), steps);
    OpenHears(Apply(s, Opens(k)), steps, k);
    assert [] + Heard(Apply(s, Opens(k)), steps, k) == Heard(Apply(s, Opens(k)), steps, k);
    ClosedHearsNothing(Apply(t, Closes(k)), later, k);
  }

  /** A task's messages: its directory and success; or failure; or its command, what its process writes, and its status. */
  predicate LegalTrace(id: string, command: string, dirs: Dirs, launch: Launch, trace: seq<Event>) {
    match launch
    case ChangeDir => IsCd(command) && trace == [DirChange(id, CdTarget(command, dirs)), TaskComplete(id, 0)]
    case PopenFails => trace == [TaskComplete(id, -1)]
    case Pipe(content, status) =>
      && |trace| >= 2 && trace[0] == TaskStart(id, command, dirs.start) && trace[|trace| - 1] == TaskComplete(id, status)
      && (forall i :: 0 < i < |trace| - 1 ==> trace[i].TaskOutput? && trace[i].id == id && trace[i].directory == dirs.start)
      && Payload(trace) == content
  }

  lemma FullTraceLegal(id: string, command: string, dirs: Dirs, launch: Launch)
    requires Fits(command, launch)
    ensures LegalTrace(id, command, dirs, launch, FullTrace(id, command, dirs, launch))
  {
    FullPayload(id, command, dirs, launch);
    if launch.Pipe? {
      var outputs := Outputs(id, dirs.start, Chunks(launch.content));
      var trace := FullTrace(id, command, dirs, launch);
      assert forall i :: 0 < i < |trace| - 1 ==> trace[i] == outputs[i - 1];
    }
  }

  /** In every interleaving a task's trace is a prefix of the one its command and launch determine. */
  lemma TraceIsPrefix(s: Server, steps: seq<Step>, id: string)
    requires Init(s) && ValidRun(s, steps) && id in Run(s, steps).tasks
    ensures var r := Run(s, steps).tasks[id];
            var trace := TraceOf(Run(s, steps).log, id);
            if r.launch.None? then trace == []
            else && Fits(r.command, r.launch.value)
                 && trace <= FullTrace(id, r.command, Run(s, steps).dirs, r.launch.value)
                 && LegalTrace(id, r.command, Run(s, steps).dirs, r.launch.value,
                               FullTrace(id, r.command, Run(s, steps).dirs, r.launch.value))
    ensures Run(s, steps).dirs.start == "/root"
  {
    InitInv(s);
    RunKeepsInv(s, steps);
    var r := Run(s, steps).tasks[id];
    if r.launch.Some? {
      FullTraceLegal(id, r.command, Run(s, steps).dirs, r.launch.value);
    }
  }

  lemma CompletionEndsLegal(id: string, command: string, dirs: Dirs, launch: Launch, trace: seq<Event>, i: nat)
    requires LegalTrace(id, command, dirs, launch, trace) && i < |trace| && trace[i].TaskComplete?
    ensures i == |trace| - 1
  {
  }

  lemma NothingRemains(id: string, dir: string, r: Record)
    requires !r.pc.Begin? && Remaining(id, dir, r) == []
    ensures r.pc.Done?
  {
  }

  lemma EmptySuffix<T>(a: seq<T>, b: seq<T>, c: seq<T>)
    requires a + b == c && |c| <= |a|
    ensures b == [] && a == c
  {
    assert |a + b| == |a| + |b|;
    assert a + b == a;
  }

  /** A task that has completed has broadcast its full trace and is done. */
  lemma CompletedIsDone(id: string, r: Record, dirs: Dirs, trace: seq<Event>, i: nat)
    requires TaskOk(id, r, dirs, trace) && i < |trace| && trace[i].TaskComplete?
    ensures r.launch.Some? && Fits(r.command, r.launch.value) && trace == FullTrace(id, r.command, dirs, r.launch.value)
    ensures r.pc.Done? && i == |trace| - 1
  {
    var rest, full := Remaining(id, dirs.start, r), FullTrace(id, r.command, dirs, r.launch.value);
    FullTraceLegal(id, r.command, dirs, r.launch.value);
    assert full[i] == trace[i] by { assert (trace + rest)[i] == trace[i]; }
    CompletionEndsLegal(id, r.command, dirs, r.launch.value, full, i);
    EmptySuffix(trace, rest, full);
    NothingRemains(id, dirs.start, r);
  }

  /** A completion is the last message of its task; by then the task is stopped and its log is complete. */
  lemma CompletionIsLast(s: Server, id: string, i: nat)
    requires Inv(s) && id in s.tasks
    requires i < |TraceOf(s.log, id)| && TraceOf(s.log, id)[i].TaskComplete?
    ensures var r := s.tasks[id];
            && i == |TraceOf(s.log, id)| - 1
            && !r.running
            && r.output == Payload(TraceOf(s.log, id))
            && r.launch.Some? && (r.launch.value.Pipe? ==> r.output == r.launch.value.content)
  {
    var r := s.tasks[id];
    var trace := TraceOf(s.log, id);
    assert TaskOk(id, r, s.dirs, trace);
    CompletedIsDone(id, r, s.dirs, trace, i);
    FullPayload(id, r.command, s.dirs, r.launch.value);
  }

  lemma {:induction false} PayloadConcat(a: seq<Event>, b: seq<Event>)
    ensures Payload(a + b) == Payload(a) + Payload(b)
  {
    if b == [] {
      assert a + b == a;
    } else {
      var init, last := b[..|b| - 1], b[|b| - 1];
      assert a + b == (a + init) + [last];
      PayloadAppend(a + init, last);
      PayloadConcat(a, init);
    }
  }

  lemma {:induction false} OutputsPayload(id: string, dir: string, chunks: seq<string>)
    ensures Payload(Outputs(id, dir, chunks)) == Concat(chunks)
  {
    if chunks != [] {
      var e := TaskOutput(id, chunks[0], dir);
      assert Outputs(id, dir, chunks) == [e] + Outputs(id, dir, chunks[1..]);
      PayloadConcat([e], Outputs(id, dir, chunks[1..]));
      OutputsPayload(id, dir, chunks[1..]);
      SinglePayload(e);
    }
  }

  lemma SinglePayload(e: Event)
    ensures Payload([e]) == if e.TaskOutput? then e.chunk else ""
  {
    assert [e][..0] == [];
  }

  /** A streamed command streams exactly what its process wrote. */
  lemma FullPayload(id: string, command: string, dirs: Dirs, launch: Launch)
    requires Fits(command, launch)
    ensures Payload(FullTrace(id, command, dirs, launch)) == if launch.Pipe? then launch.content else ""
  {
    match launch
    case ChangeDir =>
      var e, c := DirChange(id, CdTarget(command, dirs)), TaskComplete(id, 0);
      assert FullTrace(id, command, dirs, launch) == [e] + [c];
      PayloadConcat([e], [c]);
      SinglePayload(e);
      SinglePayload(c);
    case PopenFails => SinglePayload(TaskComplete(id, -1));
    case Pipe(content, status) =>
      var e, c := TaskStart(id, command, dirs.start), TaskComplete(id, status);
      var outputs := Outputs(id, dirs.start, Chunks(content));
      PayloadConcat([e] + outputs, [c]);
      PayloadConcat([e], outputs);
      SinglePayload(e);
      SinglePayload(c);
      OutputsPayload(id, dirs.start, Chunks(content));
      ChunksKeepContent(content);
  }

  /**
   At every moment what was streamed is a prefix of what is stored, at most one
   chunk behind, and what is stored is a prefix of what the process writes.
   */
  lemma StreamedAndStoredAgree(s: Server, id: string)
    requires Inv(s) && id in s.tasks
    ensures var r, streamed := s.tasks[id], Payload(TraceOf(s.log, id));
            && streamed <= r.output
            && r.output == streamed + InHand(r)
            && (r.launch.Some? && r.launch.value.Pipe? ==> r.output <= r.launch.value.content)
            && (r.launch.Some? && !r.launch.value.Pipe? ==> r.output == "")
  {
    var r, trace := s.tasks[id], TraceOf(s.log, id);
    if r.launch.Some? {
      FullPayload(id, r.command, s.dirs, r.launch.value);
      PayloadConcat(trace, Remaining(id, s.dirs.start, r));
      InHandRemains(id, s.dirs.start, r);
      PrefixBehind(Payload(trace), InHand(r), Payload(Remaining(id, s.dirs.start, r)));
    }
  }

  lemma FirstPayload(e: Event, rest: seq<Event>)
    requires e.TaskOutput?
    ensures e.chunk <= Payload([e] + rest)
  {
    PayloadConcat([e], rest);
    SinglePayload(e);
  }

  /** The chunk in hand is the next to be streamed. */
  lemma InHandRemains(id: string, dir: string, r: Record)
    requires !r.pc.Begin?
    ensures InHand(r) <= Payload(Remaining(id, dir, r))
  {
    if r.pc.Sending? {
      var e, rest := TaskOutput(id, r.pc.chunk, dir), Streaming(id, dir, r.pc.pipe, r.pc.status);
      assert Remaining(id, dir, r) == [e] + rest;
      FirstPayload(e, rest);
    }
  }

  lemma PrefixBehind(a: string, b: string, c: string)
    requires b <= c
    ensures a + b <= a + c
  {
  }

  /** A stopped task has been launched and has stored all that its process wrote. */
  lemma StoppedMeansComplete(s: Server, id: string)
    requires Inv(s) && id in s.tasks && !s.tasks[id].running
    ensures var r := s.tasks[id];
            r.launch.Some? && (r.launch.value.Pipe? ==> r.output == r.launch.value.content)
  {
    var r, trace := s.tasks[id], TraceOf(s.log, id);
    assert TaskOk(id, r, s.dirs, trace);
    FullPayload(id, r.command, s.dirs, r.launch.value);
    PayloadConcat(trace, Remaining(id, s.dirs.start, r));
    StoppedPayload(id, s.dirs.start, r);
  }

  lemma StoppedPayload(id: string, dir: string, r: Record)
    requires !StillRuns(r.pc)
    ensures Payload(Remaining(id, dir, r)) == ""
  {
    match r.pc
    case CdNotify(directory) =>
      assert Remaining(id, dir, r) == [DirChange(id, directory)] + [TaskComplete(id, 0)];
      PayloadConcat([DirChange(id, directory)], [TaskComplete(id, 0)]);
      SinglePayload(DirChange(id, directory));
      SinglePayload(TaskComplete(id, 0));
    case CdComplete => SinglePayload(TaskComplete(id, 0));
    case FailComplete => SinglePayload(TaskComplete(id, -1));
    case Completing(status) => SinglePayload(TaskComplete(id, status));
    case Done =>
  }

  lemma {:induction false} TraceConcat(a: seq<Event>, b: seq<Event>, id: string)
    ensures TraceOf(a + b, id) == TraceOf(a, id) + TraceOf(b, id)
  {
    if b == [] {
      assert a + b == a;
    } else {
      var init, last := b[..|b| - 1], b[|b| - 1];
      Associate(a, init, [last]);
      assert init + [last] == b;
      TraceAppend(a + init, last, id);
      TraceAppend(init, last, id);
      TraceConcat(a, init, id);
      Associate(TraceOf(a, id), TraceOf(init, id), [last]);
    }
  }

  /** A connection whose sends never fail sees, of every task, an unbroken in-order part of its trace. */
  lemma SubscriberSeesSegment(s: Server, k: nat, id: string)
    requires Inv(s) && k in s.subscribers && !s.subscribers[k].failed
    ensures var sub := s.subscribers[k];
            var from := |TraceOf(s.log[..sub.start], id)|;
            var seen := TraceOf(sub.received, id);
            from + |seen| <= |TraceOf(s.log, id)| && seen == TraceOf(s.log, id)[from..from + |seen|]
  {
    var sub := s.subscribers[k];
    var end := End(sub, s.log);
    var before, after := s.log[..sub.start], s.log[end..];
    assert s.log == before + sub.received + after;
    TraceConcat(before + sub.received, after, id);
    TraceConcat(before, sub.received, id);
  }
}
