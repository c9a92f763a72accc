/**
 The client's TaskManager: which servers are selected, which tasks it has
 started, and how replies change its task list. The network is a parameter:
 each call is given the reply every server would send.
 */
module TaskManager {
  import opened Text

  datatype Server = Server(name: string, ip: string, port: int)

  datatype TaskState = Running | Finished

  datatype Task = Task(id: string, server: string, command: string, state: TaskState)

  /** One POST to /exec, as it leaves the client. */
  datatype ExecRequest = ExecRequest(server: nat, command: string, env: map<string, string>)

  /** A row of the /tasks reply. */
  datatype Entry = Entry(id: string, running: bool)

  /**
   A reply to /tasks: all its rows; or those in front of a row without an "id" or
   "running" of the right type; or a body that is not JSON. An unreachable server
   counts as Entries([]).
   */
  datatype Reply = Malformed | Entries(entries: seq<Entry>) | BadRow(entries: seq<Entry>)

  // --------------------------------------------------------- the command plan

  function Count(selected: seq<bool>): nat {
    if selected == [] then 0 else
    var before := Count(selected[..|selected| - 1]);
    if selected[|selected| - 1] then before + 1 else before
  }

  function WorkerEnv(worker: nat, total: nat): map<string, string> {
    map["WORKER_ID" := ToDecimal(worker), "TOTAL_WORKERS" := ToDecimal(total)]
  }

  /** The requests of a joint command to the selected ones among the servers seen so far. */
  function JointPlan(selected: seq<bool>, command: string, total: nat): (plan: seq<ExecRequest>)
    ensures |plan| == Count(selected)
  {
    if selected == [] then [] else
    var i := |selected| - 1;
    var before := JointPlan(selected[..i], command, total);
    if selected[i] then before + [ExecRequest(i, command, WorkerEnv(Count(selected[..i]), total))] else before
  }

  /** The requests that get a task id back, up to the first that does not. */
  function Answered(plan: seq<ExecRequest>, replies: seq<Option<string>>): (a: seq<ExecRequest>)
    requires forall r <- plan :: r.server < |replies|
    ensures a <= plan
    ensures forall i :: 0 <= i < |a| ==> replies[a[i].server].Some?
    ensures |a| < |plan| ==> replies[plan[|a|].server].None?
  {
    if plan == [] || replies[plan[0].server].None? then []
    else
      var rest := Answered(plan[1..], replies);
      assert rest == plan[1..][..|rest|];
      [plan[0]] + rest
  }

  /** The requests that are sent: the answered ones and the one whose reply throws. */
  function Sent(plan: seq<ExecRequest>, replies: seq<Option<string>>): seq<ExecRequest>
    requires forall r <- plan :: r.server < |replies|
  {
    var n := |Answered(plan, replies)|;
    if n < |plan| then plan[..n + 1] else plan
  }

  predicate AllAnswer(requests: seq<ExecRequest>, replies: seq<Option<string>>) {
    forall r <- requests :: r.server < |replies| && replies[r.server].Some?
  }

  /** The tasks that answered requests leave behind. */
  function Started(answered: seq<ExecRequest>, servers: seq<Server>, replies: seq<Option<string>>): seq<Task>
    requires |servers| == |replies| && AllAnswer(answered, replies)
  {
    seq(|answered|, i requires 0 <= i < |answered| =>
      var r := answered[i];
      assert r in answered;
      Task(replies[r.server].value, servers[r.server].name, r.command, Running))
  }

  lemma {:induction false} PlanInRange(selected: seq<bool>, command: string, total: nat)
    ensures forall r <- JointPlan(selected, command, total) :: r.server < |selected| && selected[r.server]
  {
    if selected != [] {
      var i := |selected| - 1;
      PlanInRange(selected[..i], command, total);
      forall r <- JointPlan(selected, command, total)
        ensures r.server < |selected| && selected[r.server]
      {
        if r in JointPlan(selected[..i], command, total) {
          assert selected[..i][r.server] == selected[r.server];
        }
      }
    }
  }

  /**
   A joint command numbers its workers by rank: the j-th request goes to the j-th
   selected server, in index order, with WORKER_ID j out of TOTAL_WORKERS.
   */
  lemma {:induction false} WorkerIdIsRank(selected: seq<bool>, command: string, total: nat, j: nat)
    requires j < Count(selected)
    ensures var plan := JointPlan(selected, command, total);
            && plan[j].server < |selected| && selected[plan[j].server]
            && Count(selected[..plan[j].server]) == j
            && plan[j].env == map["WORKER_ID" := ToDecimal(j), "TOTAL_WORKERS" := ToDecimal(total)]
            && plan[j].command == command
            && (j > 0 ==> plan[j - 1].server < plan[j].server)
  {
    var i := |selected| - 1;
    var init := JointPlan(selected[..i], command, total);
    PlanInRange(selected[..i], command, total);
    if j < |init| {
      WorkerIdIsRank(selected[..i], command, total, j);
      assert selected[..i][..init[j].server] == selected[..init[j].server];
    } else {
      assert selected[i] && j == |init|;
      if j > 0 {
        assert init[j - 1] in init;
      }
    }
  }

  /** Every selected server gets exactly one request: the one at its rank. */
  lemma {:induction false} SelectedIsPlanned(selected: seq<bool>, command: string, total: nat, i: nat)
    requires i < |selected| && selected[i]
    ensures var plan := JointPlan(selected, command, total);
            && Count(selected[..i]) < |plan|
            && plan[Count(selected[..i])].server == i
            && forall j :: 0 <= j < |plan| && plan[j].server == i ==> j == Count(selected[..i])
  {
    var plan := JointPlan(selected, command, total);
    var last := |selected| - 1;
    if i < last {
      SelectedIsPlanned(selected[..last], command, total, i);
      assert selected[..last][..i] == selected[..i];
    }
    forall j | 0 <= j < |plan| && plan[j].server == i
      ensures j == Count(selected[..i])
    {
      WorkerIdIsRank(selected, command, total, j);
    }
  }

  /** Distinct workers print distinct ids. */
  lemma WorkerIdsDistinct(a: nat, b: nat, total: nat)
    requires a != b
    ensures WorkerEnv(a, total)["WORKER_ID"] != WorkerEnv(b, total)["WORKER_ID"]
  {
    if ToDecimal(a) == ToDecimal(b) {
      DecimalInjective(a, b);
    }
  }

  // ------------------------------------------------------------------ refresh

  function StateOf(running: bool): TaskState { if running then Running else Finished }

  /** One task under the rows of one server's reply, in order. */
  function Updated(t: Task, name: string, entries: seq<Entry>): Task {
    if entries == [] then t else
    var last := |entries| - 1;
    var t' := Updated(t, name, entries[..last]);
    if t'.id == entries[last].id && t'.server == name then t'.(state := StateOf(entries[last].running)) else t'
  }

  function Refreshed(tasks: seq<Task>, name: string, entries: seq<Entry>): (r: seq<Task>)
    ensures |r| == |tasks|
  {
    seq(|tasks|, i requires 0 <= i < |tasks| => Updated(tasks[i], name, entries))
  }

  /** The task list after the replies of the first servers; a bad one throws where it is bad and ends the refresh. */
  function RefreshedAll(tasks: seq<Task>, servers: seq<Server>, replies: seq<Reply>): (r: (seq<Task>, bool))
    requires |servers| == |replies|
    ensures |r.0| == |tasks|
    ensures r.1 <==> forall i :: 0 <= i < |replies| ==> replies[i].Entries?
  {
    if servers == [] then (tasks, true) else
    var last := |servers| - 1;
    var (before, ok) := RefreshedAll(tasks, servers[..last], replies[..last]);
    assert forall i :: 0 <= i < last ==> replies[i] == replies[..last][i];
    if !ok || replies[last].Malformed? then (before, false)
    else (Refreshed(before, servers[last].name, replies[last].entries), replies[last].Entries?)
  }

  /** What one server's reply says about an id, if anything. */
  predicate Reports(entries: seq<Entry>, id: string, running: bool) {
    Entry(id, running) in entries && Entry(id, !running) !in entries
  }

  predicate Mentions(entries: seq<Entry>, id: string) {
    exists e <- entries :: e.id == id
  }

  lemma {:induction false} UpdatedReports(t: Task, name: string, entries: seq<Entry>)
    ensures var t' := Updated(t, name, entries);
            && t'.id == t.id && t'.server == t.server && t'.command == t.command
            && (t.server != name || !Mentions(entries, t.id) ==> t' == t)
            && (forall running :: t.server == name && Reports(entries, t.id, running) ==> t'.state == StateOf(running))
  {
    if entries != [] {
      var last := |entries| - 1;
      UpdatedReports(t, name, entries[..last]);
      assert entries == entries[..last] + [entries[last]];
      assert Mentions(entries, t.id) <==> Mentions(entries[..last], t.id) || entries[last].id == t.id;
      forall running | t.server == name && Reports(entries, t.id, running)
        ensures Updated(t, name, entries).state == StateOf(running)
      {
        if entries[last].id != t.id {
          assert Reports(entries[..last], t.id, running);
        }
      }
    }
  }

  /** Of several rows for a task the last one counts. */
  lemma {:induction false} LastRowWins(t: Task, name: string, entries: seq<Entry>, j: nat)
    requires t.server == name && j < |entries| && entries[j].id == t.id
    requires forall k :: j < k < |entries| ==> entries[k].id != t.id
    ensures Updated(t, name, entries) == t.(state := if entries[j].running then Running else Finished)
  {
    var last := |entries| - 1;
    UpdatedReports(t, name, entries[..last]);
    if j < last {
      LastRowWins(t, name, entries[..last], j);
    }
  }

  predicate DistinctNames(servers: seq<Server>) {
    forall i, j :: 0 <= i < j < |servers| ==> servers[i].name != servers[j].name
  }

  /**
   A refresh with distinct server names, for a server it gets to: each of its tasks
   keeps its place, id, server and command, and takes the state the server reports,
   if it reports one, be it in front of a bad row.
   */
  lemma {:induction false} RefreshCopiesReports(tasks: seq<Task>, servers: seq<Server>, replies: seq<Reply>, k: nat, s: nat)
    requires |servers| == |replies| && DistinctNames(servers)
    requires k < |tasks| && s < |servers| && tasks[k].server == servers[s].name
    requires (forall i :: 0 <= i < s ==> replies[i].Entries?) && !replies[s].Malformed?
    ensures var t, t' := tasks[k], RefreshedAll(tasks, servers, replies).0[k];
            && t'.id == t.id && t'.server == t.server && t'.command == t.command
            && (!Mentions(replies[s].entries, t.id) ==> t' == t)
            && (forall running :: Reports(replies[s].entries, t.id, running) ==> t'.state == StateOf(running))
  {
    var last := |servers| - 1;
    var before := RefreshedAll(tasks, servers[..last], replies[..last]).0;
    if s < last {
      RefreshCopiesReports(tasks, servers[..last], replies[..last], k, s);
    } else {
      RefreshLeavesOthers(tasks, servers[..last], replies[..last], k);
    }
    if !replies[last].Malformed? {
      UpdatedReports(before[k], servers[last].name, replies[last].entries);
    }
  }

  /** A task of none of these servers is left alone. */
  lemma {:induction false} RefreshLeavesOthers(tasks: seq<Task>, servers: seq<Server>, replies: seq<Reply>, k: nat)
    requires |servers| == |replies| && k < |tasks|
    requires forall s <- servers :: s.name != tasks[k].server
    ensures RefreshedAll(tasks, servers, replies).0[k] == tasks[k]
  {
    if servers != [] {
      var last := |servers| - 1;
      RefreshLeavesOthers(tasks, servers[..last], replies[..last], k);
      if !replies[last].Malformed? {
        UpdatedReports(tasks[k], servers[last].name, replies[last].entries);
      }
    }
  }

  /** What a refresh owes its caller: a task takes the state that the server it was started on reports. */
  ghost predicate RefreshFaithful(servers: seq<Server>) {
    forall tasks: seq<Task>, replies: seq<Reply>, k: nat, s: nat, running: bool ::
      && |replies| == |servers| && (forall i :: 0 <= i < |replies| ==> replies[i].Entries?)
      && k < |tasks| && s < |servers| && tasks[k].server == servers[s].name
      && Reports(replies[s].entries, tasks[k].id, running)
      ==> RefreshedAll(tasks, servers, replies).0[k].state == StateOf(running)
  }

  /** The two servers called alike: a later one's `running: false` overrules the earlier one's `running: true`. */
  lemma {:induction false} NamesakeOverrules(task: Task, servers: seq<Server>, replies: seq<Reply>, j: nat)
    requires |servers| == |replies| && j < |servers| && task.server == servers[j].name
    requires forall i :: 0 <= i < |replies| ==> replies[i].Entries?
    requires replies[j].entries == [Entry(task.id, false)]
    requires forall i :: j < i < |replies| ==> replies[i].entries == []
    ensures RefreshedAll([task], servers, replies).0[0].state == Finished
  {
    var last := |servers| - 1;
    var before := RefreshedAll([task], servers[..last], replies[..last]).0;
    if j < last {
      NamesakeOverrules(task, servers[..last], replies[..last], j);
    } else {
      RefreshKeepsIdentity([task], servers[..last], replies[..last], 0);
      assert forall i :: 0 <= i < last ==> replies[..last][i].Entries?;
      assert replies[last].entries[..0] == [];
      assert before[0].id == task.id && before[0].server == task.server;
      assert Updated(before[0], servers[last].name, replies[last].entries[..0]) == before[0];
      assert Updated(before[0], servers[last].name, replies[last].entries).state == Finished;
    }
  }

  lemma {:induction false} RefreshKeepsIdentity(tasks: seq<Task>, servers: seq<Server>, replies: seq<Reply>, k: nat)
    requires |servers| == |replies| && k < |tasks|
    ensures var t, t' := tasks[k], RefreshedAll(tasks, servers, replies).0[k];
            t'.id == t.id && t'.server == t.server && t'.command == t.command
  {
    if servers != [] {
      var last := |servers| - 1;
      RefreshKeepsIdentity(tasks, servers[..last], replies[..last], k);
      if !replies[last].Malformed? {
        UpdatedReports(RefreshedAll(tasks, servers[..last], replies[..last]).0[k], servers[last].name, replies[last].entries);
      }
    }
  }

  /** Refreshes are faithful exactly when no two servers are called alike. */
  lemma RefreshFaithfulIff(servers: seq<Server>)
    ensures RefreshFaithful(servers) <==> DistinctNames(servers)
  {
    if DistinctNames(servers) {
      forall tasks: seq<Task>, replies: seq<Reply>, k: nat, s: nat, running: bool |
        && |replies| == |servers| && (forall i :: 0 <= i < |replies| ==> replies[i].Entries?)
        && k < |tasks| && s < |servers| && tasks[k].server == servers[s].name
        && Reports(replies[s].entries, tasks[k].id, running)
        ensures RefreshedAll(tasks, servers, replies).0[k].state == StateOf(running)
      {
        RefreshCopiesReports(tasks, servers, replies, k, s);
      }
    } else {
      var i, j :| 0 <= i < j < |servers| && servers[i].name == servers[j].name;
      var task := Task("1", servers[i].name, "", Running);
      var replies := seq(|servers|, n => Entries(if n == i then [Entry("1", true)] else if n == j then [Entry("1", false)] else []));
      NamesakeOverrules(task, servers, replies, j);
      var tasks, k: nat, s: nat := [task], 0, i;
      assert Reports(replies[s].entries, tasks[k].id, true);
      assert RefreshedAll(tasks, servers, replies).0[k].state != StateOf(true);
    }
  }

  // ---------------------------------------------------------------- the class

  function Toggled(selected: seq<bool>, index: nat): seq<bool> {
    if index < |selected| then selected[index := !selected[index]] else selected
  }

  class TaskManager {
    const servers: seq<Server>
    var selected: seq<bool>
    var tasks: seq<Task>

    ghost predicate Valid()
      reads this
    {
      |selected| == |servers|
    }

    constructor (servers: seq<Server>)
      ensures Valid() && this.servers == servers && tasks == []
      ensures forall i :: 0 <= i < |servers| ==> !selected[i]
    {
      this.servers := servers;
      selected := seq(|servers|, _ => false);
      tasks := [];
    }

    method ToggleServer(index: nat)
      requires Valid()
      modifies `selected
      ensures Valid() && selected == Toggled(old(selected), index)
    {
      if index < |selected| {
        selected := selected[index := !selected[index]];
      }
    }

    /** Posts /exec and records the task; a reply without a task id throws before anything is recorded. */
    method ExecOnServer(server: nat, command: string, env: map<string, string>, reply: Option<string>)
      returns (request: ExecRequest, ok: bool)
      requires server < |servers|
      modifies `tasks
      ensures request == ExecRequest(server, command, env) && ok == reply.Some?
      ensures tasks == old(tasks) + if ok then [Task(reply.value, servers[server].name, command, Running)] else []
    {
      request := ExecRequest(server, command, env);
      ok := reply.Some?;
      if ok {
        tasks := tasks + [Task(reply.value, servers[server].name, command, Running)];
      }
    }

    /** Runs one command on all selected servers, each told its worker number. */
    method RunJointCommand(command: string, replies: seq<Option<string>>) returns (sent: seq<ExecRequest>, ok: bool)
      requires Valid() && |replies| == |servers|
      modifies `tasks
      ensures Valid()
      ensures var plan := JointPlan(selected, command, Count(selected));
              && (forall r <- plan :: r.server < |servers|)
              && sent == Sent(plan, replies)
              && tasks == old(tasks) + Started(Answered(plan, replies), servers, replies)
              && (ok <==> Answered(plan, replies) == plan)
    {
      var total := SelectedCount();
      ghost var plan := JointPlan(selected, command, total);
      var workerId := 0;
      sent, ok := [], true;
      PlanInRange(selected, command, total);
      for i := 0 to |servers|
        invariant workerId == Count(selected[..i]) <= |plan| && sent == plan[..workerId]
        invariant AllAnswer(sent, replies)
        invariant tasks == old(tasks) + Started(sent, servers, replies)
      {
        CountGrows(selected, i);
        if selected[i] {
          RequestSent(selected, servers, command, replies, i, plan, sent);
          var request;
          request, ok := ExecOnServer(i, command, WorkerEnv(workerId, total), replies[i]);
          sent := sent + [request];
          if !ok {
            return;
          }
          workerId := workerId + 1;
        }
      }
      assert selected[..|servers|] == selected;
      AnsweredAll(sent, replies);
    }

    method SelectedCount() returns (total: nat)
      ensures total == Count(selected)
    {
      total := 0;
      for i := 0 to |selected|
        invariant total == Count(selected[..i])
      {
        CountGrows(selected, i);
        if selected[i] {
          total := total + 1;
        }
      }
      assert selected[..|selected|] == selected;
    }

    method RefreshTasks(replies: seq<Reply>) returns (ok: bool)
      requires |replies| == |servers|
      modifies `tasks
      ensures (tasks, ok) == RefreshedAll(old(tasks), servers, replies)
    {
      for i := 0 to |servers|
        invariant (tasks, true) == RefreshedAll(old(tasks), servers[..i], replies[..i])
      {
        RefreshGrows(old(tasks), servers, replies, i);
        if replies[i].Malformed? {
          RefreshStops(old(tasks), servers, replies, i + 1);
          return false;
        }
        ApplyReply(servers[i].name, replies[i].entries);
        if replies[i].BadRow? {
          RefreshStops(old(tasks), servers, replies, i + 1);
          return false;
        }
      }
      assert servers[..|servers|] == servers && replies[..|servers|] == replies;
      return true;
    }

    /** The two inner loops of refreshTasks: rows of the reply, then tasks of the client. */
    method ApplyReply(name: string, entries: seq<Entry>)
      modifies `tasks
      ensures tasks == Refreshed(old(tasks), name, entries)
    {
      ghost var start := tasks;
      for j := 0 to |entries|
        invariant tasks == Refreshed(start, name, entries[..j])
      {
        assert entries[..j + 1][..j] == entries[..j];
        ghost var before := tasks;
        for k := 0 to |tasks|
          invariant |tasks| == |start|
          invariant forall m :: 0 <= m < k ==> tasks[m] == Updated(start[m], name, entries[..j + 1])
          invariant forall m :: k <= m < |tasks| ==> tasks[m] == before[m]
        {
          if tasks[k].id == entries[j].id && tasks[k].server == name {
            tasks := tasks[k := tasks[k].(state := StateOf(entries[j].running))];
          }
        }
      }
      assert entries[..|entries|] == entries;
    }
  }

  // ----------------------------------------------- how the loops meet the plan

  lemma {:induction false} CountGrows(selected: seq<bool>, i: nat)
    requires i < |selected|
    ensures Count(selected[..i + 1]) == if selected[i] then Count(selected[..i]) + 1 else Count(selected[..i])
  {
    assert selected[..i + 1][..i] == selected[..i];
  }

  /** The request at server i, when its turn comes, is the next of the plan. */
  lemma NextPlanned(selected: seq<bool>, command: string, total: nat, i: nat)
    requires i < |selected| && selected[i]
    ensures var plan, rank := JointPlan(selected, command, total), Count(selected[..i]);
            rank < |plan| && plan[rank] == ExecRequest(i, command, WorkerEnv(rank, total))
  {
    SelectedIsPlanned(selected, command, total, i);
    WorkerIdIsRank(selected, command, total, Count(selected[..i]));
  }

  lemma HeadAndTake<T>(s: seq<T>, n: nat)
    requires 0 < n <= |s|
    ensures s[..n] == [s[0]] + s[1..][..n - 1]
  {
  }

  lemma {:induction false} AnsweredPrefix(plan: seq<ExecRequest>, replies: seq<Option<string>>, n: nat)
    requires forall r <- plan :: r.server < |replies|
    requires n < |plan| && replies[plan[n].server].None?
    requires forall i :: 0 <= i < n ==> replies[plan[i].server].Some?
    ensures Answered(plan, replies) == plan[..n]
  {
    if n > 0 {
      AnsweredPrefix(plan[1..], replies, n - 1);
      HeadAndTake(plan, n);
    }
  }

  /** The request whose reply throws is sent, and is the last. */
  lemma AnsweredUpTo(plan: seq<ExecRequest>, replies: seq<Option<string>>, before: seq<ExecRequest>)
    requires forall r <- plan :: r.server < |replies|
    requires before < plan && replies[plan[|before|].server].None?
    requires forall r <- before :: r.server < |replies| && replies[r.server].Some?
    ensures Answered(plan, replies) == before && Sent(plan, replies) == before + [plan[|before|]]
  {
    var n := |before|;
    assert before == plan[..n];
    forall i | 0 <= i < n
      ensures replies[plan[i].server].Some?
    {
      assert before[i] in before;
    }
    AnsweredPrefix(plan, replies, n);
  }

  lemma {:induction false} AnsweredAll(plan: seq<ExecRequest>, replies: seq<Option<string>>)
    requires AllAnswer(plan, replies)
    ensures Answered(plan, replies) == plan && Sent(plan, replies) == plan
  {
    if plan != [] {
      assert plan[0] in plan;
      AnsweredAll(plan[1..], replies);
    }
  }

  lemma StartedAppend(before: seq<ExecRequest>, r: ExecRequest, servers: seq<Server>, replies: seq<Option<string>>)
    requires |servers| == |replies| && AllAnswer(before, replies)
    requires r.server < |replies| && replies[r.server].Some?
    ensures AllAnswer(before + [r], replies)
    ensures Started(before + [r], servers, replies)
         == Started(before, servers, replies) + [Task(replies[r.server].value, servers[r.server].name, r.command, Running)]
  {
  }

  /** One round of the loop: the request is the next of the plan; a task id extends the list, anything else ends the plan. */
  lemma RequestSent(selected: seq<bool>, servers: seq<Server>, command: string, replies: seq<Option<string>>, i: nat,
                    plan: seq<ExecRequest>, sent: seq<ExecRequest>)
    requires |selected| == |servers| == |replies| && i < |servers| && selected[i]
    requires plan == JointPlan(selected, command, Count(selected))
    requires AllAnswer(sent, replies) && sent <= plan && |sent| == Count(selected[..i])
    ensures forall r <- plan :: r.server < |servers|
    ensures var request := ExecRequest(i, command, WorkerEnv(|sent|, Count(selected)));
            && |sent| < |plan| && sent + [request] == plan[..|sent| + 1]
            && (replies[i].Some? ==>
                  && AllAnswer(sent + [request], replies)
                  && Started(sent + [request], servers, replies)
                     == Started(sent, servers, replies) + [Task(replies[i].value, servers[i].name, command, Running)])
            && (replies[i].None? ==>
                  Answered(plan, replies) == sent && Sent(plan, replies) == sent + [request])
  {
    PlanInRange(selected, command, Count(selected));
    NextPlanned(selected, command, Count(selected), i);
    if replies[i].Some? {
      StartedAppend(sent, plan[|sent|], servers, replies);
    } else {
      AnsweredUpTo(plan, replies, sent);
    }
  }

  lemma RefreshGrows(tasks: seq<Task>, servers: seq<Server>, replies: seq<Reply>, i: nat)
    requires |servers| == |replies| && i < |servers|
    requires RefreshedAll(tasks, servers[..i], replies[..i]).1
    ensures RefreshedAll(tasks, servers[..i + 1], replies[..i + 1]) ==
            var before := RefreshedAll(tasks, servers[..i], replies[..i]).0;
            if replies[i].Malformed? then (before, false)
            else (Refreshed(before, servers[i].name, replies[i].entries), replies[i].Entries?)
  {
    assert servers[..i + 1][..i] == servers[..i] && replies[..i + 1][..i] == replies[..i];
  }

  lemma {:induction false} RefreshStops(tasks: seq<Task>, servers: seq<Server>, replies: seq<Reply>, n: nat)
    requires |servers| == |replies| && n <= |servers|
    requires !RefreshedAll(tasks, servers[..n], replies[..n]).1
    ensures RefreshedAll(tasks, servers, replies) == RefreshedAll(tasks, servers[..n], replies[..n])
    decreases |servers|
  {
    if n == |servers| {
      assert servers[..n] == servers && replies[..n] == replies;
    } else {
      var last := |servers| - 1;
      assert servers[..last][..n] == servers[..n] && replies[..last][..n] == replies[..n];
      RefreshStops(tasks, servers[..last], replies[..last], n);
    }
  }

  // ----------------------------------------------------------- the main result

  /**
   When every selected server replies: one request per selected server, in index
   order, and exactly those tasks, all RUNNING, with each server's own id.
   */
  lemma JointCommandStartsOneTaskEach(selected: seq<bool>, servers: seq<Server>, command: string, replies: seq<Option<string>>)
    requires |selected| == |servers| == |replies|
    requires forall i :: 0 <= i < |selected| && selected[i] ==> replies[i].Some?
    ensures var k := Count(selected);
            var plan := JointPlan(selected, command, k);
            && (forall r <- plan :: r.server < |servers| && replies[r.server].Some?)
            && Sent(plan, replies) == plan && |plan| == k
            && Answered(plan, replies) == plan
            && |Started(plan, servers, replies)| == k
            && forall i :: 0 <= i < |selected| && selected[i] ==>
                 var rank := Count(selected[..i]);
                 && rank < k
                 && plan[rank] == ExecRequest(i, command, map["WORKER_ID" := ToDecimal(rank), "TOTAL_WORKERS" := ToDecimal(k)])
                 && Started(plan, servers, replies)[rank]
                    == Task(replies[i].value, servers[i].name, command, Running)
  {
    var k := Count(selected);
    var plan := JointPlan(selected, command, k);
    PlanInRange(selected, command, k);
    AnsweredAll(plan, replies);
    forall i | 0 <= i < |selected| && selected[i]
      ensures var rank := Count(selected[..i]);
              rank < k && plan[rank] == ExecRequest(i, command, WorkerEnv(rank, k))
    {
      SelectedIsPlanned(selected, command, k, i);
      WorkerIdIsRank(selected, command, k, Count(selected[..i]));
    }
  }

  /** Selection flags: any run of toggles keeps one per server, flipped once per toggle of its index. */
  function ToggleAll(selected: seq<bool>, indices: seq<nat>): seq<bool> {
    if indices == [] then selected
    else Toggled(ToggleAll(selected, indices[..|indices| - 1]), indices[|indices| - 1])
  }

  lemma {:induction false} TogglesFlip(selected: seq<bool>, indices: seq<nat>, i: nat)
    requires i < |selected|
    ensures |ToggleAll(selected, indices)| == |selected|
    ensures ToggleAll(selected, indices)[i] == (selected[i] != (multiset(indices)[i] % 2 == 1))
  {
    if indices != [] {
      var last := |indices| - 1;
      TogglesFlip(selected, indices[..last], i);
      assert indices == indices[..last] + [indices[last]];
    }
  }
}
