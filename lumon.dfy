/** The agent, task and submission tables of the Lumon feature. */
module LumonSchemas {
  import opened Common

  const AgentNameMaxLength: nat := 100
  const WalletAddressMaxLength: nat := 42
  const StatusMaxLength: nat := 20
  const TaskNameMaxLength: nat := 100
  const DefaultAgentStatus: string := "active"

  /** The statuses a task row is typed to hold, plus the one deleteAgent writes. */
  datatype TaskStatus = Assigned | InProgress | Completed | Rejected | Unassigned

  function TaskStatusName(s: TaskStatus): string
  {
    match s
    case Assigned => "assigned"
    case InProgress => "in_progress"
    case Completed => "completed"
    case Rejected => "rejected"
    case Unassigned => "unassigned"
  }

  const DefaultTaskStatus: TaskStatus := Assigned

  /** The enum the task procedures accept as input. */
  predicate AcceptedTaskStatus(s: TaskStatus)
  {
    s != Unassigned
  }

  lemma TaskStatusNamesDistinct(a: TaskStatus, b: TaskStatus)
    ensures TaskStatusName(a) == TaskStatusName(b) ==> a == b
    ensures |TaskStatusName(a)| <= StatusMaxLength
  {
  }

  datatype Agent = Agent(
    id: Uuid,
    name: string,
    walletAddress: Option<string>,
    description: Option<string>,
    status: string,
    createdAt: nat,
    updatedAt: Option<nat>)

  /** A task row; `agentId` is an option only so that the unassigned state of the
      corrected deleteAgent can be written down (the column itself is NOT NULL). */
  datatype Task = Task(
    id: Uuid,
    name: string,
    instructions: string,
    agentId: Option<Uuid>,
    status: TaskStatus,
    progress: int,
    answer: Option<string>,
    signature: Option<string>,
    dueDate: Option<nat>,
    completedAt: Option<nat>,
    createdAt: nat,
    updatedAt: Option<nat>,
    nillionRecordId: Option<string>)

  datatype TaskSubmission = TaskSubmission(id: Uuid, taskId: Uuid, nillionRecordId: string, submittedAt: nat)

  /** The row an insert produces from the supplied columns and the column defaults. */
  function InsertedAgent(id: Uuid, name: string, walletAddress: Option<string>, description: Option<string>,
                         status: Option<string>, now: nat): (a: Agent)
    ensures a.status == (if status.Some? then status.value else DefaultAgentStatus)
    ensures a.createdAt == now && a.updatedAt == Some(now)
  {
    Agent(id, name, walletAddress, description, if status.Some? then status.value else DefaultAgentStatus, now, Some(now))
  }

  function InsertedTask(id: Uuid, name: string, instructions: string, agentId: Uuid, dueDate: Option<nat>,
                        status: Option<TaskStatus>, progress: Option<int>, now: nat): (t: Task)
    ensures t.status == (if status.Some? then status.value else DefaultTaskStatus)
    ensures t.progress == (if progress.Some? then progress.value else 0)
    ensures t.answer.None? && t.signature.None? && t.completedAt.None? && t.nillionRecordId.None?
  {
    Task(id, name, instructions, Some(agentId), if status.Some? then status.value else DefaultTaskStatus,
         if progress.Some? then progress.value else 0, None, None, dueDate, None, now, Some(now), None)
  }

  /** No two agents share a wallet address (null addresses never clash). */
  predicate UniqueWallets(agents: map<Uuid, Agent>)
  {
    forall a, b :: a in agents && b in agents && a != b && agents[a].walletAddress.Some? ==>
      agents[a].walletAddress != agents[b].walletAddress
  }

  predicate WalletHeld(agents: map<Uuid, Agent>, address: string, except: Uuid)
  {
    exists id :: id in agents && id != except && agents[id].walletAddress == Some(address)
  }

  predicate AgentRowOk(a: Agent)
  {
    && |a.name| <= AgentNameMaxLength
    && (a.walletAddress.Some? ==> |a.walletAddress.value| <= WalletAddressMaxLength)
    && |a.status| <= StatusMaxLength
  }

  /** A task row as the schema admits it: a short name and a non-null agent that exists. */
  predicate TaskRowOk(agents: map<Uuid, Agent>, t: Task)
  {
    && |t.name| <= TaskNameMaxLength
    && t.agentId.Some? && t.agentId.value in agents
  }

  /** The task rows the corrected schema admits: the agent may be absent. */
  predicate UnassignableTaskRowOk(agents: map<Uuid, Agent>, t: Task)
  {
    && |t.name| <= TaskNameMaxLength
    && (t.agentId.Some? ==> t.agentId.value in agents)
  }
}

/** The Lumon router's agent and task procedures as transitions of the tables. Every
    failure raised inside a procedure's `try` block reaches the caller as
    INTERNAL_SERVER_ERROR with the procedure's own message. */
module LumonSpec {
  import opened Common
  import opened LumonSchemas

  datatype Tables = Tables(agents: map<Uuid, Agent>, tasks: map<Uuid, Task>, submissions: map<Uuid, TaskSubmission>)

  datatype Step<T> = Step(tables: Tables, result: Result<T>)

  /** The constraints, with the task's agent column nullable as the corrected deleteAgent
      needs it. */
  ghost predicate Valid(t: Tables)
  {
    && (forall id :: id in t.agents ==> t.agents[id].id == id && AgentRowOk(t.agents[id]))
    && UniqueWallets(t.agents)
    && (forall id :: id in t.tasks ==> t.tasks[id].id == id && UnassignableTaskRowOk(t.agents, t.tasks[id]))
    && (forall id :: id in t.submissions ==> t.submissions[id].id == id && t.submissions[id].taskId in t.tasks)
  }

  /** `ctx.user` is set. */
  predicate SignedIn(user: Option<Uuid>)
  {
    user.Some?
  }

  function Internal<T>(t: Tables, message: string): Step<T>
  {
    Step(t, Err(Error(InternalServerError, message)))
  }

  // ---- createAgent ----

  datatype CreateAgentInput = CreateAgentInput(name: string, description: Option<string>, status: Option<string>)

  /** The wallet provider hands back a fresh address, or `None` when the call throws;
      every failure after the login check becomes "Failed to create agent". */
  function CreateAgent(t: Tables, user: Option<Uuid>, input: CreateAgentInput, wallet: Option<string>,
                       agentId: Uuid, now: nat): Step<Agent>
  {
    if !SignedIn(user) then Step(t, Err(Error(Unauthorized, "You must be logged in to create agents")))
    else if wallet.None? || WalletHeld(t.agents, wallet.value, "") then Internal(t, "Failed to create agent")
    else
      var a := InsertedAgent(agentId, input.name, wallet, input.description, input.status, now);
      if agentId in t.agents || !AgentRowOk(a) || WalletHeld(t.agents, wallet.value, agentId) then
        Internal(t, "Failed to create agent")
      else Step(t.(agents := t.agents[agentId := a]), Ok(a))
  }

  // ---- queries ----

  ghost function AgentCreated(a: Agent): int { a.createdAt }
  ghost function TaskCreated(x: Task): int { x.createdAt }

  /** Every agent, newest first. */
  ghost function GetAgents(t: Tables, user: Option<Uuid>): (r: Result<seq<Agent>>)
    ensures r.Ok? <==> SignedIn(user)
    ensures r.Ok? ==> multiset(r.value) == multiset(t.agents.Values) && Ordered(r.value, AgentCreated, true)
  {
    if !SignedIn(user) then Err(Error(Unauthorized, "You must be logged in to view agents"))
    else Ok(SortBy(t.agents.Values, AgentCreated, true))
  }

  /** Every task, newest first. */
  ghost function GetTasks(t: Tables, user: Option<Uuid>): (r: Result<seq<Task>>)
    ensures r.Ok? <==> SignedIn(user)
    ensures r.Ok? ==> multiset(r.value) == multiset(t.tasks.Values) && Ordered(r.value, TaskCreated, true)
  {
    if !SignedIn(user) then Err(Error(Unauthorized, "You must be logged in to view task types"))
    else Ok(SortBy(t.tasks.Values, TaskCreated, true))
  }

  function GetAgent(t: Tables, user: Option<Uuid>, agentId: Uuid): (r: Result<Agent>)
  {
    if !SignedIn(user) then Err(Error(Unauthorized, "You must be logged in to view agent details"))
    else if agentId !in t.agents then Err(Error(InternalServerError, "Failed to fetch agent"))
    else Ok(t.agents[agentId])
  }

  /** The filter of getAllTasks: the conjunction of the supplied conditions. */
  predicate MatchesFilter(x: Task, status: Option<TaskStatus>, agentId: Option<Uuid>)
  {
    (status.Some? ==> x.status == status.value) && (agentId.Some? ==> x.agentId == agentId)
  }

  ghost function FilteredTasks(t: Tables, status: Option<TaskStatus>, agentId: Option<Uuid>): set<Task>
  {
    set id | id in t.tasks && MatchesFilter(t.tasks[id], status, agentId) :: t.tasks[id]
  }

  /** The tasks matching every supplied filter, newest first; the input object itself may be
      absent. */
  ghost function GetAllTasks(t: Tables, user: Option<Uuid>, status: Option<TaskStatus>, agentId: Option<Uuid>): Result<seq<Task>>
  {
    if status.Some? && !AcceptedTaskStatus(status.value) then Err(Error(BadRequest, "invalid input"))
    else if !SignedIn(user) then Err(Error(Unauthorized, "You must be logged in to view tasks"))
    else Ok(SortBy(FilteredTasks(t, status, agentId), TaskCreated, true))
  }

  /** The agent's tasks, restricted to one status when one is supplied, newest first. */
  ghost function GetAgentTasks(t: Tables, user: Option<Uuid>, agentId: Uuid, status: Option<TaskStatus>): Result<seq<Task>>
  {
    if status.Some? && !AcceptedTaskStatus(status.value) then Err(Error(BadRequest, "invalid input"))
    else if !SignedIn(user) then Err(Error(Unauthorized, "You must be logged in to view tasks"))
    else Ok(SortBy(FilteredTasks(t, status, Some(agentId)), TaskCreated, true))
  }

  // ---- updateAgent ----

  datatype UpdateAgentInput = UpdateAgentInput(id: Uuid, name: string, description: Option<string>, status: string)

  predicate AcceptedAgentStatus(s: string)
  {
    s == "active" || s == "inactive" || s == "maintenance"
  }

  function UpdateAgent(t: Tables, user: Option<Uuid>, input: UpdateAgentInput, now: nat): Step<Agent>
  {
    if input.name == "" || !AcceptedAgentStatus(input.status) then Step(t, Err(Error(BadRequest, "invalid input")))
    else if !SignedIn(user) then Step(t, Err(Error(Unauthorized, "You must be logged in to update agents")))
    else if input.id !in t.agents then Internal(t, "Failed to update agent")
    else
      var a := t.agents[input.id];
      var a' := a.(name := input.name,
                   description := if input.description.Some? then input.description else a.description,
                   status := input.status, updatedAt := Some(now));
      if !AgentRowOk(a') then Internal(t, "Failed to update agent")
      else Step(t.(agents := t.agents[input.id := a']), Ok(a'))
  }

  // ---- createTask ----

  datatype CreateTaskInput = CreateTaskInput(
    name: string, instructions: string, agentId: Uuid, dueDate: Option<nat>,
    status: Option<TaskStatus>, progress: Option<real>)

  /** Input validation: non-empty name and instructions, an accepted status, progress a
      number (not necessarily whole) in the closed range 0..100. */
  predicate ValidTaskInput(input: CreateTaskInput)
  {
    && input.name != "" && input.instructions != ""
    && (input.status.Some? ==> AcceptedTaskStatus(input.status.value))
    && (input.progress.Some? ==> 0.0 <= input.progress.value <= 100.0)
  }

  /** The progress the insert sends: the supplied number, else the default 0. */
  function Progress(input: CreateTaskInput): real
  {
    if input.progress.Some? then input.progress.value else 0.0
  }

  /** Whether the integer progress column accepts the number. */
  predicate WholeNumber(p: real)
  {
    p.Floor as real == p
  }

  function CreateTask(t: Tables, user: Option<Uuid>, input: CreateTaskInput, taskId: Uuid, now: nat): Step<Task>
  {
    if !ValidTaskInput(input) then Step(t, Err(Error(BadRequest, "invalid input")))
    else if !SignedIn(user) then Step(t, Err(Error(Unauthorized, "You must be logged in to create tasks")))
    else if input.agentId !in t.agents then Internal(t, "Failed to create task")
    else
      var x := InsertedTask(taskId, input.name, input.instructions, input.agentId, input.dueDate,
                            Some(if input.status.Some? then input.status.value else DefaultTaskStatus),
                            Some(Progress(input).Floor), now);
      if taskId in t.tasks || !WholeNumber(Progress(input)) || !TaskRowOk(t.agents, x) then
        Internal(t, "Failed to create task")
      else Step(t.(tasks := t.tasks[taskId := x]), Ok(x))
  }

  // ---- updateTaskStatus ----

  function UpdateTaskStatus(t: Tables, user: Option<Uuid>, taskId: Uuid, status: TaskStatus, now: nat): Step<bool>
  {
    if !AcceptedTaskStatus(status) then Step(t, Err(Error(BadRequest, "invalid input")))
    else if !SignedIn(user) then Step(t, Err(Error(Unauthorized, "You must be logged in to update tasks")))
    else if taskId !in t.tasks then Internal(t, "Failed to update task status")
    else Step(t.(tasks := t.tasks[taskId := t.tasks[taskId].(status := status, updatedAt := Some(now))]), Ok(true))
  }

  // ---- deleteAgent ----

  predicate AssignedTo(x: Task, agentId: Uuid)
  {
    x.agentId == Some(agentId)
  }

  predicate HasTasks(t: Tables, agentId: Uuid)
  {
    exists id :: id in t.tasks && AssignedTo(t.tasks[id], agentId)
  }

  /** deleteAgent as the router is written: the first task update writes null into the NOT
      NULL agent column and throws, so an agent with tasks is never deleted. */
  function DeleteAgentAsWritten(t: Tables, user: Option<Uuid>, agentId: Uuid): Step<bool>
  {
    if !SignedIn(user) then Step(t, Err(Error(Unauthorized, "You must be logged in to delete agents")))
    else if agentId !in t.agents then Internal(t, "Failed to delete agent")
    else if HasTasks(t, agentId) then Internal(t, "Failed to delete agent")
    else Step(t.(agents := t.agents - {agentId}), Ok(true))
  }

  /** The row after it is unassigned (the update also refreshes updatedAt). */
  function UnassignedTask(x: Task, now: nat): Task
  {
    x.(status := Unassigned, agentId := None, updatedAt := Some(now))
  }

  /** Every task of the agent unassigned, all other tasks as they were. */
  function UnassignAll(tasks: map<Uuid, Task>, agentId: Uuid, now: nat): map<Uuid, Task>
  {
    map id | id in tasks :: UnassignedIfAssigned(tasks[id], agentId, now)
  }

  function UnassignedIfAssigned(x: Task, agentId: Uuid, now: nat): Task
  {
    if AssignedTo(x, agentId) then UnassignedTask(x, now) else x
  }

  /** A task map that agrees with `before` row by row after unassigning is the map
      UnassignAll builds. */
  lemma UnassignedEach(before: map<Uuid, Task>, after: map<Uuid, Task>, agentId: Uuid, now: nat)
    requires after.Keys == before.Keys
    requires forall id :: id in before ==> after[id] == UnassignedIfAssigned(before[id], agentId, now)
    ensures after == UnassignAll(before, agentId, now)
  {
  }

  /** deleteAgent as intended: unassign the agent's tasks, then delete the agent. */
  function DeleteAgent(t: Tables, user: Option<Uuid>, agentId: Uuid, now: nat): Step<bool>
  {
    if !SignedIn(user) then Step(t, Err(Error(Unauthorized, "You must be logged in to delete agents")))
    else if agentId !in t.agents then Internal(t, "Failed to delete agent")
    else Step(Tables(t.agents - {agentId}, UnassignAll(t.tasks, agentId, now), t.submissions), Ok(true))
  }

  // ---- Properties ----

  /** The procedures' own NOT_FOUND and CONFLICT errors never reach a caller. */
  lemma CallersNeverSeeNotFoundOrConflict(t: Tables, user: Option<Uuid>, now: nat, id: Uuid, wallet: Option<string>,
                                          agentInput: CreateAgentInput, updateInput: UpdateAgentInput,
                                          taskInput: CreateTaskInput, status: TaskStatus)
    ensures var c := CreateAgent(t, user, agentInput, wallet, id, now).result;
      c.Err? ==> c.error.code in {Unauthorized, InternalServerError}
    ensures var c := GetAgent(t, user, id); c.Err? ==> c.error.code in {Unauthorized, InternalServerError}
    ensures var c := UpdateAgent(t, user, updateInput, now).result; c.Err? ==> c.error.code in {BadRequest, Unauthorized, InternalServerError}
    ensures var c := CreateTask(t, user, taskInput, id, now).result; c.Err? ==> c.error.code in {BadRequest, Unauthorized, InternalServerError}
    ensures var c := UpdateTaskStatus(t, user, id, status, now).result; c.Err? ==> c.error.code in {BadRequest, Unauthorized, InternalServerError}
    ensures var c := DeleteAgent(t, user, id, now).result; c.Err? ==> c.error.code in {Unauthorized, InternalServerError}
  {
  }

  /** Without a signed-in user every procedure stops with UNAUTHORIZED before it touches the
      tables (once its input has passed validation). */
  lemma SignedOutChangesNothing(t: Tables, now: nat, id: Uuid, wallet: Option<string>, agentInput: CreateAgentInput,
                                updateInput: UpdateAgentInput, taskInput: CreateTaskInput, status: TaskStatus)
    requires AcceptedAgentStatus(updateInput.status) && updateInput.name != ""
    requires ValidTaskInput(taskInput) && AcceptedTaskStatus(status)
    ensures CreateAgent(t, None, agentInput, wallet, id, now).tables == t
    ensures CreateAgent(t, None, agentInput, wallet, id, now).result.error.code == Unauthorized
    ensures UpdateAgent(t, None, updateInput, now) == Step(t, Err(Error(Unauthorized, "You must be logged in to update agents")))
    ensures CreateTask(t, None, taskInput, id, now) == Step(t, Err(Error(Unauthorized, "You must be logged in to create tasks")))
    ensures UpdateTaskStatus(t, None, id, status, now) == Step(t, Err(Error(Unauthorized, "You must be logged in to update tasks")))
    ensures DeleteAgent(t, None, id, now) == Step(t, Err(Error(Unauthorized, "You must be logged in to delete agents")))
    ensures GetAgent(t, None, id).error.code == Unauthorized
    ensures GetAgents(t, None).Err? && GetTasks(t, None).Err?
  {
  }

  /** A created task belongs to an existing agent, carries the supplied columns with the
      defaults "assigned" and 0, keeps its progress within 0..100, and is listed among the
      agent's tasks. */
  lemma {:induction false} CreatedTaskIsListed(t: Tables, user: Option<Uuid>, input: CreateTaskInput, taskId: Uuid, now: nat)
    requires CreateTask(t, user, input, taskId, now).result.Ok?
    ensures var s := CreateTask(t, user, input, taskId, now);
      var x := s.result.value;
      && input.agentId in t.agents
      && x.name == input.name && x.instructions == input.instructions && x.agentId == Some(input.agentId)
      && x.dueDate == input.dueDate
      && x.status == (if input.status.Some? then input.status.value else Assigned)
      && x.progress as real == Progress(input)
      && 0 <= x.progress <= 100
      && x in GetAgentTasks(s.tables, user, input.agentId, None).value
  {
    var s := CreateTask(t, user, input, taskId, now);
    var x := s.result.value;
    assert x in FilteredTasks(s.tables, None, Some(input.agentId)) by {
      assert taskId in s.tables.tasks && s.tables.tasks[taskId] == x;
    }
    var r := GetAgentTasks(s.tables, user, input.agentId, None).value;
    assert x in multiset(r);
  }

  /** The validation accepts a fractional progress such as 42.5, but the integer column
      refuses it: the call then fails like any other failed insert and changes nothing. */
  lemma FractionalProgressFails(t: Tables, user: Uuid, input: CreateTaskInput, taskId: Uuid, now: nat)
    requires ValidTaskInput(input) && input.agentId in t.agents
    requires !WholeNumber(Progress(input))
    ensures CreateTask(t, Some(user), input, taskId, now) == Internal(t, "Failed to create task")
    ensures ValidTaskInput(input.(progress := Some(42.5)))
  {
  }

  /** A listing holds exactly the tasks that match the filter, each once per row, newest
      first. */
  lemma {:induction false} AllTasksMatchFilter(t: Tables, user: Option<Uuid>, status: Option<TaskStatus>, agentId: Option<Uuid>)
    requires GetAllTasks(t, user, status, agentId).Ok?
    ensures var r := GetAllTasks(t, user, status, agentId).value;
      && (forall x :: x in r <==> x in t.tasks.Values && MatchesFilter(x, status, agentId))
      && Ordered(r, TaskCreated, true)
  {
    var r := GetAllTasks(t, user, status, agentId).value;
    var f := FilteredTasks(t, status, agentId);
    assert multiset(r) == multiset(f);
    forall x ensures x in r <==> x in t.tasks.Values && MatchesFilter(x, status, agentId) {
      assert x in r <==> x in multiset(r);
      assert x in f <==> x in multiset(f);
      if x in t.tasks.Values && MatchesFilter(x, status, agentId) {
        var id :| id in t.tasks && t.tasks[id] == x;
        assert x in f;
      }
    }
  }

  /** getAgentTasks only lists the agent's tasks, and only with the requested status. */
  lemma {:induction false} AgentTasksBelongToAgent(t: Tables, user: Option<Uuid>, agentId: Uuid, status: Option<TaskStatus>)
    requires GetAgentTasks(t, user, agentId, status).Ok?
    ensures var r := GetAgentTasks(t, user, agentId, status).value;
      && r == GetAllTasks(t, user, status, Some(agentId)).value
      && (forall x :: x in r ==> x.agentId == Some(agentId) && (status.Some? ==> x.status == status.value))
  {
    AllTasksMatchFilter(t, user, status, Some(agentId));
  }

  /** getAgent: the row with the id for a signed-in caller; an unknown id raises NOT_FOUND
      inside the `try`, which reaches the caller as INTERNAL_SERVER_ERROR. */
  lemma GetAgentCases(t: Tables, user: Option<Uuid>, id: Uuid)
    ensures SignedIn(user) && id in t.agents ==> GetAgent(t, user, id) == Ok(t.agents[id])
    ensures SignedIn(user) && id !in t.agents ==>
      GetAgent(t, user, id) == Err(Error(InternalServerError, "Failed to fetch agent"))
    ensures !SignedIn(user) ==>
      GetAgent(t, user, id) == Err(Error(Unauthorized, "You must be logged in to view agent details"))
    ensures GetAgent(t, user, id).Ok? <==> SignedIn(user) && id in t.agents
  {
  }

  /** updateAgent writes the name, the description when one is supplied, the status and
      updatedAt of the one agent, and nothing else; an unknown id fails like any error
      inside the `try`. */
  lemma UpdateAgentIsLocal(t: Tables, user: Uuid, input: UpdateAgentInput, now: nat)
    requires user != "" && input.name != "" && AcceptedAgentStatus(input.status)
    ensures input.id !in t.agents ==> UpdateAgent(t, Some(user), input, now) == Internal(t, "Failed to update agent")
    ensures var s := UpdateAgent(t, Some(user), input, now);
      s.result.Ok? ==>
        var a := t.agents[input.id];
        var a' := s.result.value;
        && input.id in t.agents
        && a'.name == input.name && a'.status == input.status && a'.updatedAt == Some(now)
        && a'.description == (if input.description.Some? then input.description else a.description)
        && a'.id == a.id && a'.walletAddress == a.walletAddress && a'.createdAt == a.createdAt
        && s.tables.agents == t.agents[input.id := a']
        && s.tables.tasks == t.tasks && s.tables.submissions == t.submissions
  {
  }

  /** updateTaskStatus changes the target's status and updatedAt and nothing else. */
  lemma UpdateTaskStatusIsLocal(t: Tables, user: Option<Uuid>, taskId: Uuid, status: TaskStatus, now: nat)
    requires UpdateTaskStatus(t, user, taskId, status, now).result.Ok?
    ensures var t' := UpdateTaskStatus(t, user, taskId, status, now).tables;
      && t'.agents == t.agents && t'.submissions == t.submissions
      && t'.tasks.Keys == t.tasks.Keys
      && (forall id :: id in t.tasks && id != taskId ==> t'.tasks[id] == t.tasks[id])
      && t'.tasks[taskId] == t.tasks[taskId].(status := status, updatedAt := Some(now))
  {
  }

  /** As written, deleteAgent succeeds exactly for agents without tasks; for an agent with
      a task it fails and leaves both the agent and its tasks in place. */
  lemma {:induction false} DeleteAgentAsWrittenKeepsBusyAgents(t: Tables, user: Uuid, agentId: Uuid, taskId: Uuid)
    requires agentId in t.agents && taskId in t.tasks && AssignedTo(t.tasks[taskId], agentId)
    ensures DeleteAgentAsWritten(t, Some(user), agentId) == Internal(t, "Failed to delete agent")
    ensures agentId in DeleteAgentAsWritten(t, Some(user), agentId).tables.agents
    ensures DeleteAgentAsWritten(t, Some(user), agentId).tables.tasks[taskId].agentId == Some(agentId)
  {
    assert HasTasks(t, agentId);
  }

  /** One concrete agent with one task: the call the UI makes to delete it fails. */
  lemma DeleteAgentAsWrittenExample()
    ensures var a := Agent("a1", "Helly", Some("0x1"), None, "active", 0, Some(0));
      var x := InsertedTask("t1", "Refine", "Sort the numbers", "a1", None, None, None, 1);
      var t := Tables(map["a1" := a], map["t1" := x], map[]);
      DeleteAgentAsWritten(t, Some("u1"), "a1").result == Err(Error(InternalServerError, "Failed to delete agent"))
      && DeleteAgent(t, Some("u1"), "a1", 2).result == Ok(true)
  {
    var a := Agent("a1", "Helly", Some("0x1"), None, "active", 0, Some(0));
    var x := InsertedTask("t1", "Refine", "Sort the numbers", "a1", None, None, None, 1);
    var t := Tables(map["a1" := a], map["t1" := x], map[]);
    assert AssignedTo(t.tasks["t1"], "a1");
  }

  /** The corrected deleteAgent removes the agent, unassigns exactly its tasks, leaves every
      other task and agent as it was, and keeps the constraints. */
  lemma {:induction false} DeleteAgentUnassignsTasks(t: Tables, user: Option<Uuid>, agentId: Uuid, now: nat)
    requires Valid(t)
    requires DeleteAgent(t, user, agentId, now).result.Ok?
    ensures var t' := DeleteAgent(t, user, agentId, now).tables;
      && t'.agents == t.agents - {agentId}
      && t'.tasks.Keys == t.tasks.Keys
      && !HasTasks(t', agentId)
      && (forall id :: id in t.tasks && AssignedTo(t.tasks[id], agentId) ==>
            t'.tasks[id].status == Unassigned && t'.tasks[id].agentId.None?)
      && (forall id :: id in t.tasks && !AssignedTo(t.tasks[id], agentId) ==> t'.tasks[id] == t.tasks[id])
      && Valid(t')
  {
    var t' := DeleteAgent(t, user, agentId, now).tables;
    assert t'.tasks.Keys == t.tasks.Keys;
    forall id | id in t'.tasks ensures t'.tasks[id].id == id && UnassignableTaskRowOk(t'.agents, t'.tasks[id])
                                       && !AssignedTo(t'.tasks[id], agentId) {
      assert UnassignableTaskRowOk(t.agents, t.tasks[id]);
    }
  }

  /** Every mutation keeps the constraints. */
  lemma {:induction false} CreateAgentKeepsValid(t: Tables, user: Option<Uuid>, input: CreateAgentInput,
                                                 wallet: Option<string>, agentId: Uuid, now: nat)
    requires Valid(t)
    ensures Valid(CreateAgent(t, user, input, wallet, agentId, now).tables)
  {
    var c := CreateAgent(t, user, input, wallet, agentId, now);
    if c.result.Ok? {
      var ags := c.tables.agents;
      forall x, y | x in ags && y in ags && x != y && ags[x].walletAddress.Some?
        ensures ags[x].walletAddress != ags[y].walletAddress
      {
        if x == agentId {
          assert y in t.agents && t.agents[y] == ags[y];
        } else if y == agentId {
          assert x in t.agents && t.agents[x] == ags[x];
          assert !(x in t.agents && x != agentId && t.agents[x].walletAddress == Some(wallet.value));
        } else {
          assert x in t.agents && y in t.agents;
        }
      }
    }
  }

  lemma {:induction false} UpdateAgentKeepsValid(t: Tables, user: Option<Uuid>, input: UpdateAgentInput, now: nat)
    requires Valid(t)
    ensures Valid(UpdateAgent(t, user, input, now).tables)
  {
    var u := UpdateAgent(t, user, input, now);
    if u.result.Ok? {
      var ags := u.tables.agents;
      forall x, y | x in ags && y in ags && x != y && ags[x].walletAddress.Some?
        ensures ags[x].walletAddress != ags[y].walletAddress
      {
        assert x in t.agents && y in t.agents;
        assert ags[x].walletAddress == t.agents[x].walletAddress;
        assert ags[y].walletAddress == t.agents[y].walletAddress;
      }
    }
  }

  lemma {:induction false} TaskMutationsKeepValid(t: Tables, user: Option<Uuid>, input: CreateTaskInput, taskId: Uuid,
                                                  status: TaskStatus, now: nat)
    requires Valid(t)
    ensures Valid(CreateTask(t, user, input, taskId, now).tables)
    ensures Valid(UpdateTaskStatus(t, user, taskId, status, now).tables)
  {
  }
}

/** The Lumon router as a service whose fields are its tables. */
module LumonRouter {
  import opened Common
  import opened LumonSchemas
  import Spec = LumonSpec

  class LumonService {
    var agents: map<Uuid, Agent>
    var tasks: map<Uuid, Task>
    var submissions: map<Uuid, TaskSubmission>

    function Db(): Spec.Tables
      reads this
    {
      Spec.Tables(agents, tasks, submissions)
    }

    ghost predicate Valid()
      reads this
    {
      Spec.Valid(Db())
    }

    constructor (initial: Spec.Tables)
      requires Spec.Valid(initial)
      ensures Valid() && Db() == initial
    {
      agents := initial.agents;
      tasks := initial.tasks;
      submissions := initial.submissions;
    }

    /** `wallet` is what the wallet provider returned (`None`: the call threw). */
    method CreateAgent(user: Option<Uuid>, input: Spec.CreateAgentInput, wallet: Option<string>,
                       agentId: Uuid, now: nat) returns (r: Result<Agent>)
      requires Valid()
      modifies this
      ensures Valid()
      ensures Db() == Spec.CreateAgent(old(Db()), user, input, wallet, agentId, now).tables
      ensures r == Spec.CreateAgent(old(Db()), user, input, wallet, agentId, now).result
    {
      Spec.CreateAgentKeepsValid(Db(), user, input, wallet, agentId, now);
      if !Spec.SignedIn(user) {
        return Err(Error(Unauthorized, "You must be logged in to create agents"));
      }
      if wallet.None? || WalletHeld(agents, wallet.value, "") {
        return Err(Error(InternalServerError, "Failed to create agent"));
      }
      var a := InsertedAgent(agentId, input.name, wallet, input.description, input.status, now);
      if agentId in agents || !AgentRowOk(a) || WalletHeld(agents, wallet.value, agentId) {
        return Err(Error(InternalServerError, "Failed to create agent"));
      }
      agents := agents[agentId := a];
      r := Ok(a);
    }

    method UpdateAgent(user: Option<Uuid>, input: Spec.UpdateAgentInput, now: nat) returns (r: Result<Agent>)
      requires Valid()
      modifies this
      ensures Valid()
      ensures Db() == Spec.UpdateAgent(old(Db()), user, input, now).tables
      ensures r == Spec.UpdateAgent(old(Db()), user, input, now).result
    {
      Spec.UpdateAgentKeepsValid(Db(), user, input, now);
      if input.name == "" || !Spec.AcceptedAgentStatus(input.status) {
        return Err(Error(BadRequest, "invalid input"));
      }
      if !Spec.SignedIn(user) {
        return Err(Error(Unauthorized, "You must be logged in to update agents"));
      }
      if input.id !in agents {
        return Err(Error(InternalServerError, "Failed to update agent"));
      }
      var a := agents[input.id];
      var a' := a.(name := input.name,
                   description := if input.description.Some? then input.description else a.description,
                   status := input.status, updatedAt := Some(now));
      if !AgentRowOk(a') {
        return Err(Error(InternalServerError, "Failed to update agent"));
      }
      agents := agents[input.id := a'];
      r := Ok(a');
    }

    method CreateTask(user: Option<Uuid>, input: Spec.CreateTaskInput, taskId: Uuid, now: nat) returns (r: Result<Task>)
      requires Valid()
      modifies this
      ensures Valid()
      ensures Db() == Spec.CreateTask(old(Db()), user, input, taskId, now).tables
      ensures r == Spec.CreateTask(old(Db()), user, input, taskId, now).result
    {
      Spec.TaskMutationsKeepValid(Db(), user, input, taskId, Assigned, now);
      if !Spec.ValidTaskInput(input) {
        return Err(Error(BadRequest, "invalid input"));
      }
      if !Spec.SignedIn(user) {
        return Err(Error(Unauthorized, "You must be logged in to create tasks"));
      }
      if input.agentId !in agents {
        return Err(Error(InternalServerError, "Failed to create task"));
      }
      var status := if input.status.Some? then input.status.value else DefaultTaskStatus;
      var progress := if input.progress.Some? then input.progress.value else 0.0;
      var x := InsertedTask(taskId, input.name, input.instructions, input.agentId, input.dueDate,
                            Some(status), Some(progress.Floor), now);
      if taskId in tasks || progress.Floor as real != progress || !TaskRowOk(agents, x) {
        return Err(Error(InternalServerError, "Failed to create task"));
      }
      tasks := tasks[taskId := x];
      r := Ok(x);
    }

    method UpdateTaskStatus(user: Option<Uuid>, taskId: Uuid, status: TaskStatus, now: nat) returns (r: Result<bool>)
      requires Valid()
      modifies this
      ensures Valid()
      ensures Db() == Spec.UpdateTaskStatus(old(Db()), user, taskId, status, now).tables
      ensures r == Spec.UpdateTaskStatus(old(Db()), user, taskId, status, now).result
    {
      Spec.TaskMutationsKeepValid(Db(), user, Spec.CreateTaskInput("", "", "", None, None, None), taskId, status, now);
      if !AcceptedTaskStatus(status) {
        return Err(Error(BadRequest, "invalid input"));
      }
      if !Spec.SignedIn(user) {
        return Err(Error(Unauthorized, "You must be logged in to update tasks"));
      }
      if taskId !in tasks {
        return Err(Error(InternalServerError, "Failed to update task status"));
      }
      tasks := tasks[taskId := tasks[taskId].(status := status, updatedAt := Some(now))];
      r := Ok(true);
    }

    /** Unassign the agent's tasks one by one, then delete the agent (the corrected
        deleteAgent: the router as written cannot store the unassigned rows). */
    method DeleteAgent(user: Option<Uuid>, agentId: Uuid, now: nat) returns (r: Result<bool>)
      requires Valid()
      modifies this
      ensures Valid()
      ensures Db() == Spec.DeleteAgent(old(Db()), user, agentId, now).tables
      ensures r == Spec.DeleteAgent(old(Db()), user, agentId, now).result
    {
      if !Spec.SignedIn(user) {
        return Err(Error(Unauthorized, "You must be logged in to delete agents"));
      }
      if agentId !in agents {
        return Err(Error(InternalServerError, "Failed to delete agent"));
      }
      Spec.DeleteAgentUnassignsTasks(Db(), user, agentId, now);
      var agentTasks := set id | id in tasks && Spec.AssignedTo(tasks[id], agentId);
      ghost var before := tasks;
      var pending := agentTasks;
      while pending != {}
        invariant pending <= agentTasks
        invariant tasks.Keys == before.Keys
        invariant forall id :: id in before && id !in pending ==> tasks[id] == Spec.UnassignedIfAssigned(before[id], agentId, now)
        invariant forall id :: id in pending ==> tasks[id] == before[id]
        invariant agents == old(agents) && submissions == old(submissions)
        decreases |pending|
      {
        var id :| id in pending;
        tasks := tasks[id := Spec.UnassignedTask(tasks[id], now)];
        pending := pending - {id};
      }
      Spec.UnassignedEach(before, tasks, agentId, now);
      agents := agents - {agentId};
      r := Ok(true);
    }
  }
}
