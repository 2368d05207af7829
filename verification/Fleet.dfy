/**
 * The central server, every agent, and the link between them: requests may be served late, more than once or
 * never, replies may be lost, and an agent may stop between any two of its journal statements.
 */
module Fleet {
  import opened Results
  import opened Central

  datatype Request = Request(results: seq<CommandResult>, active: Option<CommandId>)

  /**
   * An agent with the history that the properties speak of: `starts` lists every execution it began and
   * `succeeded` the ones whose worker returned Ok. `requests` and `replies` are its exchanges, by number.
   */
  datatype Agent = Agent(
    executed: Executed,
    worker: Option<CommandId>,
    starts: seq<CommandId>,
    succeeded: set<CommandId>,
    waiting: Option<nat>,
    requests: map<nat, Request>,
    replies: set<(nat, Reply)>)

  datatype World = World(server: Server, agents: map<DeviceId, Agent>)

  datatype Step =
    | Queue(order: Order)
    | Cancel(id: CommandId)
    | SetDevice(device: DeviceId, approved: bool)
    | Enroll(device: DeviceId)
    | Send(device: DeviceId, number: nat, results: seq<CommandResult>)
    | Serve(device: DeviceId, number: nat, reply: Reply)
    | Receive(device: DeviceId, number: nat, reply: Reply)
    | ReceiveAndStop(device: DeviceId, number: nat, reply: Reply, done: nat)
    | Lose(device: DeviceId)
    | Return(device: DeviceId, outcome: Outcome, oversized: bool)
    | Stop(device: DeviceId, returned: bool)

  // ---- The agent's loop ----

  predicate Rejected(a: Agent, reply: Reply) {
    Refused(a.executed, a.worker, reply)
  }

  function Received(a: Agent, reply: Reply): Agent
    requires !Rejected(a, reply)
  {
    var acknowledged := Acknowledged(a.executed, reply.acknowledged);
    match reply.command
    case None => a.(executed := acknowledged, waiting := None)
    case Some(c) =>
      var started := Started(acknowledged, c);
      if c.id in acknowledged then a.(executed := started, waiting := None)
      else a.(executed := started, waiting := None, worker := Some(c.id), starts := a.starts + [c.id])
  }

  /** Stopping ends the worker; the next start reopens the journal before anything else. */
  function Stopped(a: Agent): Agent {
    a.(executed := Reopened(a.executed), worker := None, waiting := None)
  }

  /** Stopped after `done` statements on the journal, before a worker could be spawned. */
  function StoppedWithin(a: Agent, reply: Reply, done: nat): Agent {
    if done <= |reply.acknowledged| then Stopped(a.(executed := Acknowledged(a.executed, reply.acknowledged[..done])))
    else if reply.command.Some? && !Rejected(a, reply) then
      Stopped(a.(executed := Started(Acknowledged(a.executed, reply.acknowledged), reply.command.value)))
    else Stopped(a.(executed := Acknowledged(a.executed, reply.acknowledged)))
  }

  function Returned(a: Agent, outcome: Outcome, oversized: bool): Agent
    requires a.worker.Some? && a.worker.value in a.executed
  {
    a.(executed := Concluded(a.executed, a.worker.value, outcome, oversized), worker := None,
       succeeded := if outcome == Completed then a.succeeded + {a.worker.value} else a.succeeded)
  }

  function Sent(a: Agent, number: nat, results: seq<CommandResult>): Agent {
    a.(waiting := Some(number), requests := a.requests[number := Request(results, a.worker)])
  }

  // ---- Steps ----

  predicate Listed(commands: seq<Command>, id: CommandId) {
    exists i :: 0 <= i < |commands| && commands[i].id == id
  }

  ghost predicate ServerStep(s: Server, step: Step, s': Server) {
    match step
    case Queue(order) =>
      && Admitted(s.devices, s.commands, order) && !Listed(s.commands, order.id)
      && s' == s.(commands := s.commands + [order.Row()])
    case Cancel(id) => s' == s.(commands := CancelledOne(s.commands, id))
    case SetDevice(d, approved) =>
      && d in s.devices
      && s' == Server(s.devices[d := if approved then Approved else Revoked],
                      if approved then s.commands else CancelledDevice(s.commands, d))
    case Enroll(d) => d !in s.devices && s' == s.(devices := s.devices[d := Pending])
    case _ => false
  }

  /** What one agent does on its own. */
  ghost predicate AgentStep(a: Agent, step: Step, a': Agent) {
    match step
    case Send(_, number, results) =>
      a.waiting.None? && number !in a.requests && Reportable(a.executed, results) && a' == Sent(a, number, results)
    case Receive(_, number, reply) =>
      a.waiting == Some(number) && (number, reply) in a.replies && !Rejected(a, reply) && a' == Received(a, reply)
    case ReceiveAndStop(_, number, reply, done) =>
      a.waiting == Some(number) && (number, reply) in a.replies && a' == StoppedWithin(a, reply, done)
    case Lose(_) => a' == a.(waiting := None)
    case Return(_, outcome, oversized) =>
      && a.waiting.None? && a.worker.Some? && a.worker.value in a.executed
      && a' == Returned(a, outcome, oversized)
    case Stop(_, returned) =>
      a' == Stopped(a).(succeeded := if returned && a.worker.Some? then a.succeeded + {a.worker.value} else a.succeeded)
    case _ => false
  }

  ghost predicate ServeStep(s: Server, a: Agent, step: Step, s': Server, a': Agent) {
    && step.Serve? && step.number in a.requests
    && Polled(s, step.device, a.requests[step.number].results, a.requests[step.number].active, s', step.reply)
    && a' == a.(replies := a.replies + {(step.number, step.reply)})
  }

  predicate IsServerStep(step: Step) {
    step.Queue? || step.Cancel? || step.SetDevice? || step.Enroll?
  }

  ghost predicate Next(w: World, step: Step, w': World) {
    if IsServerStep(step) then
      w'.agents == w.agents && ServerStep(w.server, step, w'.server)
    else
      && step.device in w.agents && step.device in w'.agents
      && w'.agents == w.agents[step.device := w'.agents[step.device]]
      && if step.Serve? then ServeStep(w.server, w.agents[step.device], step, w'.server, w'.agents[step.device])
         else w'.server == w.server && AgentStep(w.agents[step.device], step, w'.agents[step.device])
  }

  const FRESH := Agent(map[], None, [], {}, None, map[], {})

  predicate Init(w: World) {
    w.server.commands == [] && forall d :: d in w.agents ==> w.agents[d] == FRESH
  }

  // ---- Invariants ----

  predicate ClosedBelow(commands: seq<Command>, device: DeviceId, i: nat) {
    forall j :: 0 <= j < i && j < |commands| && commands[j].device == device ==> !Open(commands[j].status)
  }

  predicate Dispatched(s: Status) {
    s == Delivered || s.Finished?
  }

  /** A command is dispatched only after every earlier command of its device was closed. */
  ghost predicate Sequential(commands: seq<Command>) {
    forall i :: 0 <= i < |commands| && Dispatched(commands[i].status) ==> ClosedBelow(commands, commands[i].device, i)
  }

  predicate RowMatches(row: Command, device: DeviceId, executed: Executed)
    requires row.id in executed
  {
    && row.device == device && row.body == executed[row.id].body && Dispatched(row.status)
    && (row.status.Finished? ==> executed[row.id].result == Some(row.status.outcome))
  }

  ghost predicate JournalMatches(commands: seq<Command>, device: DeviceId, executed: Executed) {
    && (forall id :: id in executed ==> Listed(commands, id))
    && (forall i :: 0 <= i < |commands| && commands[i].id in executed ==> RowMatches(commands[i], device, executed))
    && (forall i :: 0 <= i < |commands| && commands[i].device == device && commands[i].status.Finished? ==>
          commands[i].id in executed)
  }

  /** Only the running command lacks a result, and it is the last one started. */
  ghost predicate WorkerMatches(a: Agent) {
    && (forall id :: id in a.executed && a.executed[id].result.None? ==> a.worker == Some(id))
    && (a.worker.Some? ==>
          && a.worker.value in a.executed && a.executed[a.worker.value].result.None?
          && |a.starts| > 0 && a.starts[|a.starts| - 1] == a.worker.value)
  }

  ghost predicate StartsInOrder(commands: seq<Command>, starts: seq<CommandId>) {
    forall p, q {:trigger Precedes(commands, starts[p], starts[q])} :: 0 <= p < q < |starts| ==>
      Precedes(commands, starts[p], starts[q])
  }

  /** Queued before. */
  ghost predicate Precedes(commands: seq<Command>, x: CommandId, y: CommandId) {
    forall i, k :: 0 <= i < |commands| && 0 <= k < |commands| && commands[i].id == x && commands[k].id == y ==> i < k
  }

  ghost predicate HistoryMatches(a: Agent) {
    && (forall p :: 0 <= p < |a.starts| ==> a.starts[p] in a.executed)
    && (forall id :: id in a.succeeded ==> id in a.starts)
    && (forall id :: id in a.executed && a.executed[id].result == Some(Completed) ==> id in a.succeeded)
  }

  predicate ResultsMatch(results: seq<CommandResult>, executed: Executed) {
    forall r :: r in results ==> r.id in executed && executed[r.id].result == Some(r.outcome)
  }

  ghost predicate RequestsMatch(a: Agent) {
    && (forall n :: n in a.requests ==> ResultsMatch(a.requests[n].results, a.executed))
    && (a.waiting.Some? ==> a.waiting.value in a.requests && a.requests[a.waiting.value].active == a.worker)
    && (forall x :: x in a.replies ==>
          x.0 in a.requests && (x.1.command.Some? ==> x.1.state == Approved && a.requests[x.0].active.None?))
  }

  ghost predicate EnvelopeMatches(commands: seq<Command>, device: DeviceId, c: Envelope) {
    && Listed(commands, c.id)
    && forall i :: 0 <= i < |commands| && commands[i].id == c.id ==>
      commands[i].device == device && commands[i].body == c.operation && Dispatched(commands[i].status)
  }

  ghost predicate RepliesMatch(commands: seq<Command>, device: DeviceId, a: Agent) {
    forall x :: x in a.replies && x.1.command.Some? ==> EnvelopeMatches(commands, device, x.1.command.value)
  }

  ghost predicate AgentInv(commands: seq<Command>, device: DeviceId, a: Agent) {
    && JournalMatches(commands, device, a.executed)
    && WorkerMatches(a)
    && StartsInOrder(commands, a.starts)
    && HistoryMatches(a)
    && RequestsMatch(a)
    && RepliesMatch(commands, device, a)
  }

  ghost predicate ServerInv(commands: seq<Command>) {
    DistinctIds(commands) && Sequential(commands)
  }

  ghost predicate Inv(w: World) {
    ServerInv(w.server.commands) && forall d :: d in w.agents ==> AgentInv(w.server.commands, d, w.agents[d])
  }

  // ---- Rows only move forward ----

  predicate RowMoves(c: Command, c': Command) {
    && c'.id == c.id && c'.device == c.device && c'.body == c.body
    && match c.status
       case Queued => c'.status == Queued || c'.status == Delivered || c'.status == Cancelled
       case Delivered => Dispatched(c'.status)
       case Cancelled => c'.status == Cancelled
       case Finished(o) => c'.status == Finished(o)
  }

  ghost predicate Moves(commands: seq<Command>, commands': seq<Command>) {
    && |commands| <= |commands'|
    && (forall i :: 0 <= i < |commands| ==> RowMoves(commands[i], commands'[i]))
    && (forall i :: |commands| <= i < |commands'| ==> commands'[i].status == Queued)
  }

  predicate FinishedNow(c: Command, c': Command, device: DeviceId) {
    c.device == device && c.status == Delivered && c'.status.Finished?
  }

  /** A command of this device is finished only with the result that its journal holds. */
  ghost predicate FinishesFrom(commands: seq<Command>, commands': seq<Command>, device: DeviceId, executed: Executed) {
    forall i :: 0 <= i < |commands| && i < |commands'| && FinishedNow(commands[i], commands'[i], device) ==>
      commands[i].id in executed && executed[commands[i].id].result == Some(commands'[i].status.outcome)
  }

  lemma MovesKeepListed(commands: seq<Command>, commands': seq<Command>, id: CommandId)
    requires Moves(commands, commands') && Listed(commands, id)
    ensures Listed(commands', id)
  {
    var i :| 0 <= i < |commands| && commands[i].id == id;
    assert RowMoves(commands[i], commands'[i]);
  }

  /** With distinct ids, a row whose id was listed before is a row that was there before. */
  lemma ListedRowIsOld(commands: seq<Command>, commands': seq<Command>, i: nat)
    requires Moves(commands, commands') && DistinctIds(commands')
    requires i < |commands'| && Listed(commands, commands'[i].id)
    ensures i < |commands| && commands[i].id == commands'[i].id
  {
    var j :| 0 <= j < |commands| && commands[j].id == commands'[i].id;
    assert RowMoves(commands[j], commands'[j]);
    assert i == j;
  }

  lemma MovesKeepJournal(commands: seq<Command>, commands': seq<Command>, device: DeviceId, executed: Executed)
    requires Moves(commands, commands') && DistinctIds(commands')
    requires JournalMatches(commands, device, executed) && FinishesFrom(commands, commands', device, executed)
    ensures JournalMatches(commands', device, executed)
  {
    forall id | id in executed
      ensures Listed(commands', id)
    {
      MovesKeepListed(commands, commands', id);
    }
    forall i | 0 <= i < |commands'| && commands'[i].id in executed
      ensures RowMatches(commands'[i], device, executed)
    {
      ListedRowIsOld(commands, commands', i);
      assert RowMatches(commands[i], device, executed) && RowMoves(commands[i], commands'[i]);
    }
    forall i | 0 <= i < |commands'| && commands'[i].device == device && commands'[i].status.Finished?
      ensures commands'[i].id in executed
    {
      assert i < |commands|;
      assert RowMoves(commands[i], commands'[i]);
    }
  }

  lemma MovesKeepEnvelope(commands: seq<Command>, commands': seq<Command>, device: DeviceId, c: Envelope)
    requires Moves(commands, commands') && DistinctIds(commands') && EnvelopeMatches(commands, device, c)
    ensures EnvelopeMatches(commands', device, c)
  {
    MovesKeepListed(commands, commands', c.id);
    forall i | 0 <= i < |commands'| && commands'[i].id == c.id
      ensures commands'[i].device == device && commands'[i].body == c.operation && Dispatched(commands'[i].status)
    {
      ListedRowIsOld(commands, commands', i);
      assert RowMoves(commands[i], commands'[i]);
    }
  }

  lemma MovesKeepOrder(commands: seq<Command>, commands': seq<Command>, starts: seq<CommandId>)
    requires Moves(commands, commands') && DistinctIds(commands') && StartsInOrder(commands, starts)
    requires forall p :: 0 <= p < |starts| ==> Listed(commands, starts[p])
    ensures StartsInOrder(commands', starts)
  {
    forall p, q | 0 <= p < q < |starts|
      ensures Precedes(commands', starts[p], starts[q])
    {
      assert Precedes(commands, starts[p], starts[q]);
      forall i, k | 0 <= i < |commands'| && 0 <= k < |commands'| && commands'[i].id == starts[p] && commands'[k].id == starts[q]
        ensures i < k
      {
        ListedRowIsOld(commands, commands', i);
        ListedRowIsOld(commands, commands', k);
      }
    }
  }

  /** Whatever the server does to its rows, an agent that did nothing still satisfies its invariant. */
  lemma MovesKeepAgent(commands: seq<Command>, commands': seq<Command>, device: DeviceId, a: Agent)
    requires Moves(commands, commands') && DistinctIds(commands')
    requires AgentInv(commands, device, a) && FinishesFrom(commands, commands', device, a.executed)
    ensures AgentInv(commands', device, a)
  {
    MovesKeepJournal(commands, commands', device, a.executed);
    MovesKeepOrder(commands, commands', a.starts);
    forall x | x in a.replies && x.1.command.Some?
      ensures EnvelopeMatches(commands', device, x.1.command.value)
    {
      MovesKeepEnvelope(commands, commands', device, x.1.command.value);
    }
  }

  // ---- The server's own steps ----

  /** Rows that move without being dispatched keep the dispatch order. */
  lemma QuietMovesKeepSequential(commands: seq<Command>, commands': seq<Command>)
    requires Moves(commands, commands') && Sequential(commands)
    requires forall i :: 0 <= i < |commands| && Dispatched(commands'[i].status) ==> Dispatched(commands[i].status)
    ensures Sequential(commands')
  {
    forall i | 0 <= i < |commands'| && Dispatched(commands'[i].status)
      ensures ClosedBelow(commands', commands'[i].device, i)
    {
      assert i < |commands|;
      assert RowMoves(commands[i], commands'[i]);
      assert ClosedBelow(commands, commands[i].device, i);
      forall j | 0 <= j < i && commands'[j].device == commands'[i].device
        ensures !Open(commands'[j].status)
      {
        assert RowMoves(commands[j], commands'[j]);
      }
    }
  }

  lemma QueueMoves(commands: seq<Command>, order: Order)
    requires ServerInv(commands) && !Listed(commands, order.id)
    ensures Moves(commands, commands + [order.Row()]) && ServerInv(commands + [order.Row()])
  {
    var commands' := commands + [order.Row()];
    assert forall i :: 0 <= i < |commands| ==> commands'[i] == commands[i] && RowMoves(commands[i], commands'[i]);
    QuietMovesKeepSequential(commands, commands');
  }

  lemma CancelMoves(commands: seq<Command>, commands': seq<Command>)
    requires ServerInv(commands) && |commands'| == |commands|
    requires forall i :: 0 <= i < |commands| ==> commands'[i] == commands[i] || commands'[i] == CancelledRow(commands[i])
    ensures Moves(commands, commands') && ServerInv(commands')
    ensures forall i :: 0 <= i < |commands| && commands'[i].status.Finished? ==> commands[i].status.Finished?
  {
    assert forall i :: 0 <= i < |commands| ==> RowMoves(commands[i], commands'[i]);
    QuietMovesKeepSequential(commands, commands');
  }

  lemma ServerStepMoves(s: Server, step: Step, s': Server)
    requires ServerStep(s, step, s') && ServerInv(s.commands)
    ensures Moves(s.commands, s'.commands) && ServerInv(s'.commands)
    ensures forall i :: 0 <= i < |s.commands| && s'.commands[i].status.Finished? ==> s.commands[i].status.Finished?
  {
    match step {
      case Queue(order) => QueueMoves(s.commands, order);
      case Cancel(_) => CancelMoves(s.commands, s'.commands);
      case SetDevice(_, _) => CancelMoves(s.commands, s'.commands);
      case Enroll(_) => CancelMoves(s.commands, s'.commands);
      case Send(_, _, _) =>
      case Serve(_, _, _) =>
      case Receive(_, _, _) =>
      case ReceiveAndStop(_, _, _, _) =>
      case Lose(_) =>
      case Return(_, _, _) =>
      case Stop(_, _) =>
    }
  }

  // ---- Serving a poll ----

  predicate ReportRow(c: Command, c': Command, device: DeviceId, results: seq<CommandResult>) {
    c' == c
    || (c.status == Delivered && c.device == device
        && exists r :: r in results && r.id == c.id && c' == c.(status := Finished(r.outcome)))
  }

  predicate AnswersRow(r: CommandResult, c: Command, device: DeviceId) {
    r.id == c.id && c.device == device && c.status == Delivered
  }

  lemma {:induction false} ReportedRows(commands: seq<Command>, device: DeviceId, results: seq<CommandResult>)
    ensures |AllReported(commands, device, results)| == |commands|
    ensures forall i :: 0 <= i < |commands| ==> ReportRow(commands[i], AllReported(commands, device, results)[i], device, results)
    ensures forall i, r :: 0 <= i < |commands| && r in results && AnswersRow(r, commands[i], device) ==>
      AllReported(commands, device, results)[i].status.Finished?
  {
    if results != [] {
      var front, last := results[..|results| - 1], results[|results| - 1];
      ReportedRows(commands, device, front);
      var before, after := AllReported(commands, device, front), AllReported(commands, device, results);
      assert results == front + [last];
      forall i | 0 <= i < |commands|
        ensures ReportRow(commands[i], after[i], device, results)
        ensures forall r :: r in results && AnswersRow(r, commands[i], device) ==> after[i].status.Finished?
      {
        assert ReportRow(commands[i], before[i], device, front);
      }
    }
  }

  lemma ReportedMoves(commands: seq<Command>, device: DeviceId, results: seq<CommandResult>)
    requires ServerInv(commands)
    ensures var after := AllReported(commands, device, results); Moves(commands, after) && ServerInv(after)
  {
    var after := AllReported(commands, device, results);
    ReportedRows(commands, device, results);
    assert forall i :: 0 <= i < |commands| ==> RowMoves(commands[i], after[i]);
    QuietMovesKeepSequential(commands, after);
  }

  /** Handing out the first open command never overtakes another. */
  lemma DeliveringKeepsSequential(commands: seq<Command>, device: DeviceId, i: nat)
    requires ServerInv(commands) && IsFirstOpen(commands, device, i)
    ensures Moves(commands, commands[i := commands[i].(status := Delivered)])
    ensures ServerInv(commands[i := commands[i].(status := Delivered)])
  {
    var after := commands[i := commands[i].(status := Delivered)];
    forall k | 0 <= k < |after|
      ensures RowMoves(commands[k], after[k])
    {
    }
    forall k | 0 <= k < |after| && Dispatched(after[k].status)
      ensures ClosedBelow(after, after[k].device, k)
    {
      if k == i {
        forall j | 0 <= j < k && after[j].device == device
          ensures !Open(after[j].status)
        {
          assert !OpenAt(commands, device, j);
        }
      } else {
        assert ClosedBelow(commands, commands[k].device, k);
      }
    }
  }

  /** What one served poll does to the rows, given that the request's results are the journal's. */
  lemma ServingMoves(s: Server, device: DeviceId, r: Request, s': Server, reply: Reply, executed: Executed)
    requires ServerInv(s.commands) && ResultsMatch(r.results, executed)
    requires Polled(s, device, r.results, r.active, s', reply)
    ensures Moves(s.commands, s'.commands) && ServerInv(s'.commands)
    ensures FinishesFrom(s.commands, s'.commands, device, executed)
    ensures forall d :: d != device ==> FinishesNothing(s.commands, s'.commands, d)
    ensures reply.command.Some? ==>
      reply.state == Approved && r.active.None? && EnvelopeMatches(s'.commands, device, reply.command.value)
  {
    var reported := AllReported(s.commands, device, r.results);
    ReportedMoves(s.commands, device, r.results);
    ReportedRows(s.commands, device, r.results);
    if s.devices[device] == Approved && r.active.None? && SomeOpen(reported, device) {
      var i: nat :| IsFirstOpen(reported, device, i)
        && s'.commands == reported[i := reported[i].(status := Delivered)]
        && reply.command == Some(Envelope(reported[i].id, reported[i].body));
      DeliveringKeepsSequential(reported, device, i);
      assert s'.commands[i].id == reported[i].id;
    }
    forall i | 0 <= i < |s.commands|
      ensures RowMoves(s.commands[i], s'.commands[i])
      ensures FinishedNow(s.commands[i], s'.commands[i], device) ==>
        s.commands[i].id in executed && executed[s.commands[i].id].result == Some(s'.commands[i].status.outcome)
      ensures forall d :: d != device ==> !FinishedNow(s.commands[i], s'.commands[i], d)
    {
      assert ReportRow(s.commands[i], reported[i], device, r.results);
      assert RowMoves(reported[i], s'.commands[i]);
    }
  }

  ghost predicate FinishesNothing(commands: seq<Command>, commands': seq<Command>, device: DeviceId) {
    forall i :: 0 <= i < |commands| && i < |commands'| ==> !FinishedNow(commands[i], commands'[i], device)
  }

  /** One more reply on its way, to a request that said the agent was idle. */
  lemma ReplyingKeepsInv(commands: seq<Command>, device: DeviceId, a: Agent, number: nat, reply: Reply)
    requires AgentInv(commands, device, a) && number in a.requests
    requires reply.command.Some? ==> reply.state == Approved && a.requests[number].active.None?
    requires reply.command.Some? ==> EnvelopeMatches(commands, device, reply.command.value)
    ensures AgentInv(commands, device, a.(replies := a.replies + {(number, reply)}))
  {
    var a' := a.(replies := a.replies + {(number, reply)});
    assert RepliesMatch(commands, device, a');
    assert RequestsMatch(a');
  }

  lemma OthersKeepInv(w: World, commands': seq<Command>, device: DeviceId)
    requires Inv(w) && Moves(w.server.commands, commands') && DistinctIds(commands')
    requires forall d :: d != device ==> FinishesNothing(w.server.commands, commands', d)
    ensures forall d :: d in w.agents && d != device ==> AgentInv(commands', d, w.agents[d])
  {
    forall d | d in w.agents && d != device
      ensures AgentInv(commands', d, w.agents[d])
    {
      assert AgentInv(w.server.commands, d, w.agents[d]);
      assert FinishesNothing(w.server.commands, commands', d);
      assert FinishesFrom(w.server.commands, commands', d, w.agents[d].executed);
      MovesKeepAgent(w.server.commands, commands', d, w.agents[d]);
    }
  }

  lemma ServeKeepsInv(w: World, step: Step, w': World)
    requires Inv(w) && step.Serve? && Next(w, step, w')
    ensures Inv(w') && Moves(w.server.commands, w'.server.commands)
  {
    var d, a := step.device, w.agents[step.device];
    var c, c' := w.server.commands, w'.server.commands;
    assert AgentInv(c, d, a) && ResultsMatch(a.requests[step.number].results, a.executed);
    ServingMoves(w.server, d, a.requests[step.number], w'.server, step.reply, a.executed);
    MovesKeepAgent(c, c', d, a);
    ReplyingKeepsInv(c', d, a, step.number, step.reply);
    OthersKeepInv(w, c', d);
  }

  lemma ServerStepKeepsInv(w: World, step: Step, w': World)
    requires Inv(w) && Next(w, step, w') && IsServerStep(step)
    ensures Inv(w') && Moves(w.server.commands, w'.server.commands)
  {
    var c, c' := w.server.commands, w'.server.commands;
    ServerStepMoves(w.server, step, w'.server);
    forall d | d in w'.agents
      ensures AgentInv(c', d, w'.agents[d])
    {
      assert AgentInv(c, d, w.agents[d]);
      MovesKeepAgent(c, c', d, w.agents[d]);
    }
  }

  // ---- The agent's steps ----

  /** Journal changes that drop nothing and never change a recorded outcome or body. */
  ghost predicate Extends(executed: Executed, executed': Executed) {
    forall id :: id in executed ==>
      && id in executed' && executed'[id].body == executed[id].body
      && (executed[id].result.Some? ==> executed'[id].result == executed[id].result)
  }

  lemma ExtendedJournalMatches(commands: seq<Command>, device: DeviceId, executed: Executed, executed': Executed)
    requires JournalMatches(commands, device, executed) && Extends(executed, executed')
    requires executed'.Keys == executed.Keys
    ensures JournalMatches(commands, device, executed')
  {
    forall i | 0 <= i < |commands| && commands[i].id in executed'
      ensures RowMatches(commands[i], device, executed')
    {
      assert RowMatches(commands[i], device, executed);
    }
  }

  lemma ExtendedResultsMatch(a: Agent, executed': Executed)
    requires RequestsMatch(a) && Extends(a.executed, executed')
    ensures forall n :: n in a.requests ==> ResultsMatch(a.requests[n].results, executed')
  {
    forall n | n in a.requests
      ensures ResultsMatch(a.requests[n].results, executed')
    {
      assert ResultsMatch(a.requests[n].results, a.executed);
    }
  }

  lemma SendKeepsInv(commands: seq<Command>, device: DeviceId, a: Agent, number: nat, results: seq<CommandResult>)
    requires AgentInv(commands, device, a)
    requires a.waiting.None? && number !in a.requests && Reportable(a.executed, results)
    ensures AgentInv(commands, device, Sent(a, number, results))
  {
    assert ResultsMatch(results, a.executed);
    assert RequestsMatch(Sent(a, number, results));
  }

  lemma AcknowledgingKeepsInv(commands: seq<Command>, device: DeviceId, a: Agent, ids: seq<CommandId>)
    requires AgentInv(commands, device, a)
    ensures AgentInv(commands, device, a.(executed := Acknowledged(a.executed, ids)))
  {
    var executed' := Acknowledged(a.executed, ids);
    ExtendedJournalMatches(commands, device, a.executed, executed');
    ExtendedResultsMatch(a, executed');
  }

  lemma StoppingKeepsInv(commands: seq<Command>, device: DeviceId, a: Agent)
    requires JournalMatches(commands, device, a.executed) && StartsInOrder(commands, a.starts) && HistoryMatches(a)
    requires RepliesMatch(commands, device, a)
    requires forall n :: n in a.requests ==> ResultsMatch(a.requests[n].results, a.executed)
    requires forall x :: x in a.replies ==>
      x.0 in a.requests && (x.1.command.Some? ==> x.1.state == Approved && a.requests[x.0].active.None?)
    ensures AgentInv(commands, device, Stopped(a))
  {
    ExtendedJournalMatches(commands, device, a.executed, Reopened(a.executed));
    forall n | n in a.requests
      ensures ResultsMatch(a.requests[n].results, Reopened(a.executed))
    {
      assert ResultsMatch(a.requests[n].results, a.executed);
    }
  }

  /** A new journal entry for a dispatched command that no reply can have finished yet. */
  lemma StartedJournalMatches(commands: seq<Command>, device: DeviceId, executed: Executed, c: Envelope)
    requires JournalMatches(commands, device, executed) && EnvelopeMatches(commands, device, c)
    ensures !Reused(executed, c)
    ensures JournalMatches(commands, device, Started(executed, c))
    ensures Extends(executed, Started(executed, c))
  {
    var i :| 0 <= i < |commands| && commands[i].id == c.id;
    if c.id in executed {
      assert RowMatches(commands[i], device, executed);
      ExtendedJournalMatches(commands, device, executed, Started(executed, c));
    } else {
      forall k | 0 <= k < |commands| && commands[k].id in Started(executed, c)
        ensures RowMatches(commands[k], device, Started(executed, c))
      {
        if commands[k].id != c.id {
          assert RowMatches(commands[k], device, executed);
        }
      }
    }
  }

  /** A command that starts now comes after every command that started before. */
  lemma StartsStayInOrder(commands: seq<Command>, device: DeviceId, executed: Executed, starts: seq<CommandId>, c: Envelope)
    requires ServerInv(commands) && JournalMatches(commands, device, executed) && EnvelopeMatches(commands, device, c)
    requires StartsInOrder(commands, starts) && forall p :: 0 <= p < |starts| ==> starts[p] in executed
    requires c.id !in executed
    ensures StartsInOrder(commands, starts + [c.id])
  {
    var starts' := starts + [c.id];
    forall p, q | 0 <= p < q < |starts'|
      ensures Precedes(commands, starts'[p], starts'[q])
    {
      if q < |starts| {
        assert Precedes(commands, starts[p], starts[q]);
      } else {
        ComesAfterJournal(commands, device, executed, starts[p], c);
      }
    }
  }

  lemma ComesAfterJournal(commands: seq<Command>, device: DeviceId, executed: Executed, id: CommandId, c: Envelope)
    requires ServerInv(commands) && JournalMatches(commands, device, executed) && EnvelopeMatches(commands, device, c)
    requires id in executed && c.id !in executed
    ensures Precedes(commands, id, c.id)
  {
    forall i, k | 0 <= i < |commands| && 0 <= k < |commands| && commands[i].id == id && commands[k].id == c.id
      ensures i < k
    {
      assert RowMatches(commands[i], device, executed);
      assert ClosedBelow(commands, commands[i].device, i);
      assert Open(commands[k].status);
    }
  }

  /** The command of an awaited reply passes both checks. */
  lemma AwaitedIsAccepted(commands: seq<Command>, device: DeviceId, a: Agent, number: nat, reply: Reply)
    requires AgentInv(commands, device, a)
    requires a.waiting == Some(number) && (number, reply) in a.replies
    ensures !Rejected(a, reply)
    ensures reply.command.Some? ==> a.worker.None? && EnvelopeMatches(commands, device, reply.command.value)
  {
    if reply.command.Some? {
      var c := reply.command.value;
      assert EnvelopeMatches(commands, device, c);
      var i :| 0 <= i < |commands| && commands[i].id == c.id;
      if c.id in a.executed {
        assert RowMatches(commands[i], device, a.executed);
      }
    }
  }

  /** Starting a command on an agent that runs none. */
  lemma StartingKeepsInv(commands: seq<Command>, device: DeviceId, a: Agent, c: Envelope)
    requires ServerInv(commands) && AgentInv(commands, device, a) && EnvelopeMatches(commands, device, c)
    requires a.worker.None? && c.id !in a.executed
    ensures AgentInv(commands, device,
      a.(executed := Started(a.executed, c), waiting := None, worker := Some(c.id), starts := a.starts + [c.id]))
  {
    StartedJournalMatches(commands, device, a.executed, c);
    ExtendedResultsMatch(a, Started(a.executed, c));
    StartsStayInOrder(commands, device, a.executed, a.starts, c);
    var a' := a.(executed := Started(a.executed, c), waiting := None, worker := Some(c.id), starts := a.starts + [c.id]);
    assert WorkerMatches(a');
    assert HistoryMatches(a') by {
      forall p | 0 <= p < |a'.starts|
        ensures a'.starts[p] in a'.executed
      {
        if p < |a.starts| { assert a'.starts[p] == a.starts[p]; }
      }
    }
    assert RequestsMatch(a');
  }

  /** A command that is already in the journal only has its result sent again. */
  lemma RepeatingKeepsInv(commands: seq<Command>, device: DeviceId, a: Agent, c: Envelope)
    requires AgentInv(commands, device, a) && EnvelopeMatches(commands, device, c)
    requires c.id in a.executed
    ensures AgentInv(commands, device, a.(executed := Started(a.executed, c), waiting := None))
  {
    StartedJournalMatches(commands, device, a.executed, c);
    ExtendedResultsMatch(a, Started(a.executed, c));
    var a' := a.(executed := Started(a.executed, c), waiting := None);
    assert WorkerMatches(a') && HistoryMatches(a') && RequestsMatch(a');
  }

  lemma ReceivingKeepsInv(commands: seq<Command>, device: DeviceId, a: Agent, number: nat, reply: Reply)
    requires ServerInv(commands) && AgentInv(commands, device, a)
    requires a.waiting == Some(number) && (number, reply) in a.replies
    ensures !Rejected(a, reply)
    ensures AgentInv(commands, device, Received(a, reply))
  {
    AwaitedIsAccepted(commands, device, a, number, reply);
    AcknowledgingKeepsInv(commands, device, a, reply.acknowledged);
    var b := a.(executed := Acknowledged(a.executed, reply.acknowledged));
    match reply.command {
      case None => ForgettingKeepsInv(commands, device, b);
      case Some(c) =>
        if c.id in b.executed {
          RepeatingKeepsInv(commands, device, b, c);
        } else {
          StartingKeepsInv(commands, device, b, c);
        }
    }
  }

  lemma ForgettingKeepsInv(commands: seq<Command>, device: DeviceId, a: Agent)
    requires AgentInv(commands, device, a)
    ensures AgentInv(commands, device, a.(waiting := None))
  {
  }

  lemma StoppingWithinKeepsInv(commands: seq<Command>, device: DeviceId, a: Agent, number: nat, reply: Reply, done: nat)
    requires ServerInv(commands) && AgentInv(commands, device, a)
    requires a.waiting == Some(number) && (number, reply) in a.replies
    ensures AgentInv(commands, device, StoppedWithin(a, reply, done))
  {
    var ids := if done <= |reply.acknowledged| then reply.acknowledged[..done] else reply.acknowledged;
    AcknowledgingKeepsInv(commands, device, a, ids);
    var b := a.(executed := Acknowledged(a.executed, ids));
    if done > |reply.acknowledged| && reply.command.Some? && !Rejected(a, reply) {
      var c := reply.command.value;
      assert EnvelopeMatches(commands, device, c);
      StartedJournalMatches(commands, device, b.executed, c);
      ExtendedResultsMatch(b, Started(b.executed, c));
      StoppingKeepsInv(commands, device, b.(executed := Started(b.executed, c)));
    } else {
      StoppingKeepsInv(commands, device, b);
    }
  }

  lemma ReturningKeepsInv(commands: seq<Command>, device: DeviceId, a: Agent, outcome: Outcome, oversized: bool)
    requires AgentInv(commands, device, a) && a.waiting.None? && a.worker.Some?
    ensures AgentInv(commands, device, Returned(a, outcome, oversized))
  {
    var a' := Returned(a, outcome, oversized);
    ExtendedJournalMatches(commands, device, a.executed, a'.executed);
    ExtendedResultsMatch(a, a'.executed);
    assert a.starts[|a.starts| - 1] in a.starts;
  }

  lemma AgentStepKeepsInv(commands: seq<Command>, device: DeviceId, a: Agent, step: Step, a': Agent)
    requires ServerInv(commands) && AgentInv(commands, device, a) && AgentStep(a, step, a')
    ensures AgentInv(commands, device, a')
  {
    match step {
      case Send(_, number, results) => SendKeepsInv(commands, device, a, number, results);
      case Receive(_, number, reply) => ReceivingKeepsInv(commands, device, a, number, reply);
      case ReceiveAndStop(_, number, reply, done) => StoppingWithinKeepsInv(commands, device, a, number, reply, done);
      case Return(_, outcome, oversized) => ReturningKeepsInv(commands, device, a, outcome, oversized);
      case Stop(_, returned) =>
        var b := a.(succeeded := if returned && a.worker.Some? then a.succeeded + {a.worker.value} else a.succeeded);
        assert HistoryMatches(b) by {
          if a.worker.Some? { assert a.starts[|a.starts| - 1] in a.starts; }
        }
        StoppingKeepsInv(commands, device, b);
      case Lose(_) => ForgettingKeepsInv(commands, device, a);
      case Queue(_) =>
      case Cancel(_) =>
      case SetDevice(_, _) =>
      case Enroll(_) =>
      case Serve(_, _, _) =>
    }
  }

  /** A step of one agent leaves the server and the other agents alone. */
  lemma AgentAloneKeepsInv(w: World, step: Step, w': World)
    requires Inv(w) && Next(w, step, w') && !IsServerStep(step) && !step.Serve?
    ensures w'.server == w.server && Inv(w')
  {
    var d := step.device;
    assert AgentInv(w.server.commands, d, w.agents[d]);
    AgentStepKeepsInv(w.server.commands, d, w.agents[d], step, w'.agents[d]);
    forall e | e in w'.agents
      ensures AgentInv(w'.server.commands, e, w'.agents[e])
    {
      if e != d { assert AgentInv(w.server.commands, e, w.agents[e]); }
    }
  }

  lemma NothingMoves(commands: seq<Command>)
    ensures Moves(commands, commands)
  {
    assert forall i :: 0 <= i < |commands| ==> RowMoves(commands[i], commands[i]);
  }

  lemma NextKeepsInv(w: World, step: Step, w': World)
    requires Inv(w) && Next(w, step, w')
    ensures Inv(w') && Moves(w.server.commands, w'.server.commands)
  {
    if IsServerStep(step) {
      ServerStepKeepsInv(w, step, w');
    } else if step.Serve? {
      ServeKeepsInv(w, step, w');
    } else {
      AgentAloneKeepsInv(w, step, w');
      NothingMoves(w.server.commands);
    }
  }

  // ---- Whole runs ----

  ghost predicate Run(trace: seq<World>, steps: seq<Step>) {
    && |trace| == |steps| + 1 && Init(trace[0])
    && forall k :: 0 <= k < |steps| ==> Next(trace[k], steps[k], trace[k + 1])
  }

  lemma {:induction false} RunsKeepInv(trace: seq<World>, steps: seq<Step>, k: nat)
    requires Run(trace, steps) && k < |trace|
    ensures Inv(trace[k])
  {
    if k == 0 {
      assert forall d :: d in trace[0].agents ==> AgentInv([], d, FRESH);
    } else {
      RunsKeepInv(trace, steps, k - 1);
      NextKeepsInv(trace[k - 1], steps[k - 1], trace[k]);
    }
  }

  lemma RunsMove(trace: seq<World>, steps: seq<Step>, k: nat)
    requires Run(trace, steps) && k < |steps|
    ensures Moves(trace[k].server.commands, trace[k + 1].server.commands)
  {
    RunsKeepInv(trace, steps, k);
    NextKeepsInv(trace[k], steps[k], trace[k + 1]);
  }

  /** The same command later: its identity is kept, and so is a closed status. */
  predicate RowLater(c: Command, c': Command) {
    && c'.id == c.id && c'.device == c.device && c'.body == c.body
    && (!Open(c.status) ==> c' == c)
    && (Dispatched(c.status) ==> Dispatched(c'.status))
  }

  lemma LaterStill(c: Command, before: seq<Command>, after: seq<Command>, i: nat)
    requires i < |before| && RowLater(c, before[i]) && Moves(before, after)
    ensures i < |after| && RowLater(c, after[i])
  {
    assert RowMoves(before[i], after[i]);
  }

  lemma {:induction false} RowsMoveOn(tables: seq<seq<Command>>, k: nat, l: nat, i: nat)
    requires k <= l < |tables| && i < |tables[k]|
    requires forall m :: k <= m < l ==> Moves(tables[m], tables[m + 1])
    ensures i < |tables[l]| && RowLater(tables[k][i], tables[l][i])
    decreases l
  {
    if k < l {
      RowsMoveOn(tables, k, l - 1, i);
      LaterStill(tables[k][i], tables[l - 1], tables[l], i);
    }
  }

  /** Rows keep their place, identity and body; a closed row keeps its status for the rest of the run. */
  lemma ClosedStatusesAreFinal(trace: seq<World>, steps: seq<Step>, k: nat, l: nat, i: nat)
    requires Run(trace, steps) && k <= l < |trace| && i < |trace[k].server.commands|
    ensures i < |trace[l].server.commands|
    ensures RowLater(trace[k].server.commands[i], trace[l].server.commands[i])
  {
    var tables := seq(|trace|, m requires 0 <= m < |trace| => trace[m].server.commands);
    forall m | k <= m < l
      ensures Moves(tables[m], tables[m + 1])
    {
      RunsMove(trace, steps, m);
    }
    RowsMoveOn(tables, k, l, i);
  }

  /** At any time a device has at most one command that was handed out and not answered, and nothing open before it. */
  lemma OneOutstanding(trace: seq<World>, steps: seq<Step>, k: nat, i: nat, j: nat)
    requires Run(trace, steps) && k < |trace| && i < j < |trace[k].server.commands|
    requires trace[k].server.commands[i].device == trace[k].server.commands[j].device
    requires Dispatched(trace[k].server.commands[j].status)
    ensures !Open(trace[k].server.commands[i].status)
  {
    RunsKeepInv(trace, steps, k);
    assert ClosedBelow(trace[k].server.commands, trace[k].server.commands[j].device, j);
  }

  /** Each command is started at most once. */
  lemma AtMostOnce(trace: seq<World>, steps: seq<Step>, k: nat, d: DeviceId, p: nat, q: nat)
    requires Run(trace, steps) && k < |trace| && d in trace[k].agents
    requires p < q < |trace[k].agents[d].starts|
    ensures trace[k].agents[d].starts[p] != trace[k].agents[d].starts[q]
  {
    RunsKeepInv(trace, steps, k);
    var c, a := trace[k].server.commands, trace[k].agents[d];
    assert AgentInv(c, d, a) && a.starts[p] in a.executed;
    assert Listed(c, a.starts[p]);
    var i :| 0 <= i < |c| && c[i].id == a.starts[p];
    assert Precedes(c, a.starts[p], a.starts[q]);
    assert a.starts[p] == a.starts[q] ==> i < i;
  }

  /** Executions start in queue order, on the device the command was queued for, with the queued body. */
  lemma StartsFollowTheQueue(trace: seq<World>, steps: seq<Step>, k: nat, d: DeviceId, p: nat) returns (i: nat)
    requires Run(trace, steps) && k < |trace| && d in trace[k].agents
    requires p < |trace[k].agents[d].starts|
    ensures var c, a := trace[k].server.commands, trace[k].agents[d];
      && i < |c| && c[i].id == a.starts[p] && c[i].device == d
      && c[i].id in a.executed && c[i].body == a.executed[c[i].id].body
      && (forall q :: p < q < |a.starts| ==> Precedes(c, c[i].id, a.starts[q]))
      && (forall j :: 0 <= j < i && c[j].device == d ==> !Open(c[j].status))
  {
    RunsKeepInv(trace, steps, k);
    var c, a := trace[k].server.commands, trace[k].agents[d];
    assert AgentInv(c, d, a) && a.starts[p] in a.executed;
    assert Listed(c, a.starts[p]);
    i :| 0 <= i < |c| && c[i].id == a.starts[p];
    assert RowMatches(c[i], d, a.executed);
    assert ClosedBelow(c, d, i);
    forall q | p < q < |a.starts|
      ensures Precedes(c, c[i].id, a.starts[q])
    {
      assert Precedes(c, a.starts[p], a.starts[q]);
    }
  }

  /** When a command starts, every command that started before it on the device has a recorded outcome. */
  lemma ExecutionsNeverOverlap(trace: seq<World>, steps: seq<Step>, k: nat, d: DeviceId, p: nat)
    requires Run(trace, steps) && k < |trace| && d in trace[k].agents
    requires p + 1 < |trace[k].agents[d].starts|
    ensures var a := trace[k].agents[d]; a.starts[p] in a.executed && a.executed[a.starts[p]].result.Some?
  {
    RunsKeepInv(trace, steps, k);
    var a := trace[k].agents[d];
    assert AgentInv(trace[k].server.commands, d, a);
    AtMostOnce(trace, steps, k, d, p, |a.starts| - 1);
  }

  /** Every started command is dispatched in the server's table. */
  lemma StartedIsDispatched(trace: seq<World>, steps: seq<Step>, k: nat, d: DeviceId, id: CommandId) returns (i: nat)
    requires Run(trace, steps) && k < |trace| && d in trace[k].agents && id in trace[k].agents[d].starts
    ensures i < |trace[k].server.commands|
    ensures trace[k].server.commands[i].id == id && Dispatched(trace[k].server.commands[i].status)
  {
    RunsKeepInv(trace, steps, k);
    var c, a := trace[k].server.commands, trace[k].agents[d];
    assert AgentInv(c, d, a);
    assert Listed(c, id);
    i :| 0 <= i < |c| && c[i].id == id;
    assert RowMatches(c[i], d, a.executed);
  }

  lemma IdsAreDistinct(trace: seq<World>, steps: seq<Step>, k: nat)
    requires Run(trace, steps) && k < |trace|
    ensures DistinctIds(trace[k].server.commands)
  {
    RunsKeepInv(trace, steps, k);
  }

  /** A cancelled command was not started and never will be. */
  lemma CancelledNeverStarts(trace: seq<World>, steps: seq<Step>, k: nat, l: nat, d: DeviceId, i: nat)
    requires Run(trace, steps) && k < |trace| && l < |trace| && d in trace[l].agents
    requires i < |trace[k].server.commands| && trace[k].server.commands[i].status == Cancelled
    ensures trace[k].server.commands[i].id !in trace[l].agents[d].starts
  {
    var m := if k < l then l else k;
    var id := trace[k].server.commands[i].id;
    ClosedStatusesAreFinal(trace, steps, k, m, i);
    if id in trace[l].agents[d].starts {
      var j := StartedIsDispatched(trace, steps, l, d, id);
      ClosedStatusesAreFinal(trace, steps, l, m, j);
      IdsAreDistinct(trace, steps, m);
      assert false;
    }
  }

  /** The command that step `k` withdraws: cancelled while queued, or queued for a device whose approval is revoked. */
  predicate Withdraws(commands: seq<Command>, step: Step, i: nat) {
    && i < |commands| && commands[i].status == Queued
    && (step == Cancel(commands[i].id) || step == SetDevice(commands[i].device, false))
  }

  /** What is withdrawn before it was dispatched is never executed by any agent, before or after, whoever is approved again. */
  lemma WithdrawnNeverStarts(trace: seq<World>, steps: seq<Step>, k: nat, i: nat, l: nat, d: DeviceId)
    requires Run(trace, steps) && k < |steps| && Withdraws(trace[k].server.commands, steps[k], i)
    requires l < |trace| && d in trace[l].agents
    ensures i < |trace[k + 1].server.commands|
    ensures trace[k + 1].server.commands[i] ==
      Command(trace[k].server.commands[i].id, trace[k].server.commands[i].device, trace[k].server.commands[i].body, Cancelled)
    ensures trace[k].server.commands[i].id !in trace[l].agents[d].starts
  {
    assert Next(trace[k], steps[k], trace[k + 1]);
    CancelledNeverStarts(trace, steps, k + 1, l, d, i);
  }

  /** The server says completed only of a command that was executed exactly once and whose worker returned Ok. */
  lemma CompletedMeansExecutedOnce(trace: seq<World>, steps: seq<Step>, k: nat, i: nat) returns (p: nat)
    requires Run(trace, steps) && k < |trace| && i < |trace[k].server.commands|
    requires trace[k].server.commands[i].status == Finished(Completed)
    requires trace[k].server.commands[i].device in trace[k].agents
    ensures var c := trace[k].server.commands[i];
      var a := trace[k].agents[c.device];
      && c.id in a.succeeded && p < |a.starts| && a.starts[p] == c.id
      && forall q :: 0 <= q < |a.starts| && a.starts[q] == c.id ==> q == p
  {
    RunsKeepInv(trace, steps, k);
    var c := trace[k].server.commands[i];
    var a := trace[k].agents[c.device];
    assert AgentInv(trace[k].server.commands, c.device, a);
    assert RowMatches(c, c.device, a.executed);
    p :| 0 <= p < |a.starts| && a.starts[p] == c.id;
    forall q | 0 <= q < |a.starts| && a.starts[q] == c.id
      ensures q == p
    {
      assert q !in {p} ==> false by {
        if q != p { AtMostOnce(trace, steps, k, c.device, if q < p then q else p, if q < p then p else q); }
      }
    }
  }

  /** The agent's two consistency checks on a reply never fire. */
  lemma RepliesAreNeverRejected(trace: seq<World>, steps: seq<Step>, k: nat, d: DeviceId, number: nat, reply: Reply)
    requires Run(trace, steps) && k < |trace| && d in trace[k].agents
    requires trace[k].agents[d].waiting == Some(number) && (number, reply) in trace[k].agents[d].replies
    ensures !Rejected(trace[k].agents[d], reply)
  {
    RunsKeepInv(trace, steps, k);
    assert AgentInv(trace[k].server.commands, d, trace[k].agents[d]);
    ReceivingKeepsInv(trace[k].server.commands, d, trace[k].agents[d], number, reply);
  }

  /** Whenever a poll is served, however late, every result it carries is acknowledged and recorded. */
  lemma ServedResultsAreRecorded(trace: seq<World>, steps: seq<Step>, k: nat, r: CommandResult) returns (i: nat)
    requires Run(trace, steps) && k < |steps| && steps[k].Serve?
    requires steps[k].device in trace[k].agents && steps[k].number in trace[k].agents[steps[k].device].requests
    requires r in trace[k].agents[steps[k].device].requests[steps[k].number].results
    ensures r.id in steps[k].reply.acknowledged
    ensures i < |trace[k + 1].server.commands|
    ensures trace[k + 1].server.commands[i].id == r.id && trace[k + 1].server.commands[i].status == Finished(r.outcome)
  {
    RunsKeepInv(trace, steps, k);
    var d, n := steps[k].device, steps[k].number;
    assert Next(trace[k], steps[k], trace[k + 1]);
    assert AgentInv(trace[k].server.commands, d, trace[k].agents[d]);
    i := ServingRecords(trace[k].server, d, trace[k].agents[d].requests[n], trace[k + 1].server, steps[k].reply,
                        trace[k].agents[d].executed, r);
  }

  lemma ServingRecords(s: Server, device: DeviceId, q: Request, s': Server, reply: Reply, executed: Executed, r: CommandResult)
    returns (i: nat)
    requires JournalMatches(s.commands, device, executed) && ResultsMatch(q.results, executed) && r in q.results
    requires Polled(s, device, q.results, q.active, s', reply)
    ensures r.id in reply.acknowledged
    ensures i < |s'.commands| && s'.commands[i].id == r.id && s'.commands[i].status == Finished(r.outcome)
  {
    var c := s.commands;
    var reported := AllReported(c, device, q.results);
    assert Listed(c, r.id);
    i :| 0 <= i < |c| && c[i].id == r.id;
    assert RowMatches(c[i], device, executed);
    ReportedRow(c, device, q.results, executed, i, r);
    assert Answered(reported, device, r.id);
    assert s'.commands[i] == reported[i];
  }

  /** The reported row of a dispatched command holds the journal's outcome. */
  lemma ReportedRow(c: seq<Command>, device: DeviceId, results: seq<CommandResult>, executed: Executed, i: nat, r: CommandResult)
    requires ResultsMatch(results, executed) && r in results && i < |c| && c[i].id == r.id
    requires RowMatches(c[i], device, executed)
    ensures |AllReported(c, device, results)| == |c|
    ensures AllReported(c, device, results)[i] == c[i].(status := Finished(r.outcome))
  {
    ReportedRows(c, device, results);
    assert ReportRow(c[i], AllReported(c, device, results)[i], device, results);
    if c[i].status == Delivered { assert AnswersRow(r, c[i], device); }
  }
}
