/** The central command queue (src/central/store.rs) and the agent's journal (src/central/agent.rs). */
module Central {
  import opened Results

  type CommandId = nat
  type DeviceId = string
  type Operation = string

  datatype Outcome = Completed | Failed | Uncertain
  datatype Status = Queued | Delivered | Cancelled | Finished(outcome: Outcome)
  datatype DeviceState = Pending | Approved | Revoked

  /** A row of `commands`; rows are kept in sequence order and never removed. */
  datatype Command = Command(id: CommandId, device: DeviceId, body: Operation, status: Status)

  datatype CommandResult = CommandResult(id: CommandId, outcome: Outcome)
  datatype Envelope = Envelope(id: CommandId, operation: Operation)
  datatype Reply = Reply(state: DeviceState, command: Option<Envelope>, acknowledged: seq<CommandId>)

  datatype Server = Server(devices: map<DeviceId, DeviceState>, commands: seq<Command>)

  const PENDING_LIMIT := 256
  const RESULT_LIMIT := 16

  /** Still to be delivered or answered. */
  predicate Open(s: Status) {
    s == Queued || s == Delivered
  }

  // ---- The server's statements ----

  /** `UPDATE commands SET status=... WHERE id=... AND device=... AND status='delivered'`. */
  function Reported(commands: seq<Command>, device: DeviceId, result: CommandResult): seq<Command> {
    seq(|commands|, i requires 0 <= i < |commands| =>
      if commands[i].id == result.id && commands[i].device == device && commands[i].status == Delivered
      then commands[i].(status := Finished(result.outcome)) else commands[i])
  }

  function AllReported(commands: seq<Command>, device: DeviceId, results: seq<CommandResult>): seq<Command> {
    if results == [] then commands
    else Reported(AllReported(commands, device, results[..|results| - 1]), device, results[|results| - 1])
  }

  predicate Answered(commands: seq<Command>, device: DeviceId, id: CommandId) {
    exists i :: 0 <= i < |commands| && commands[i].id == id && commands[i].device == device && commands[i].status.Finished?
  }

  /** Reporting answers the reported command if it was delivered, and changes no answer already there. */
  lemma ReportedKeepsAnswers(commands: seq<Command>, device: DeviceId, result: CommandResult)
    ensures forall id :: Answered(commands, device, id) ==> Answered(Reported(commands, device, result), device, id)
    ensures forall id :: id != result.id && Answered(Reported(commands, device, result), device, id) ==>
      Answered(commands, device, id)
  {
    var after := Reported(commands, device, result);
    forall id | Answered(commands, device, id)
      ensures Answered(after, device, id)
    {
      var i :| 0 <= i < |commands| && commands[i].id == id && commands[i].device == device && commands[i].status.Finished?;
      assert after[i] == commands[i];
    }
    forall id | id != result.id && Answered(after, device, id)
      ensures Answered(commands, device, id)
    {
      var i :| 0 <= i < |after| && after[i].id == id && after[i].device == device && after[i].status.Finished?;
      assert after[i] == commands[i];
    }
  }

  predicate Reports(results: seq<CommandResult>, id: CommandId) {
    exists r :: r in results && r.id == id
  }

  predicate OpenAt(commands: seq<Command>, device: DeviceId, i: nat) {
    i < |commands| && commands[i].device == device && Open(commands[i].status)
  }

  /** `SELECT ... WHERE device=... AND status IN ('queued','delivered') ORDER BY seq LIMIT 1`. */
  predicate IsFirstOpen(commands: seq<Command>, device: DeviceId, i: nat) {
    OpenAt(commands, device, i) && forall j :: 0 <= j < i ==> !OpenAt(commands, device, j)
  }

  predicate SomeOpen(commands: seq<Command>, device: DeviceId) {
    exists i :: 0 <= i < |commands| && OpenAt(commands, device, i)
  }

  /** What one poll does: record results, then hand out the first open command of an idle approved device. */
  ghost predicate Polled(server: Server, device: DeviceId, results: seq<CommandResult>, active: Option<CommandId>,
                         server': Server, reply: Reply)
  {
    && device in server.devices && server'.devices == server.devices && reply.state == server.devices[device]
    && var reported := AllReported(server.commands, device, results);
    && (forall id :: id in reply.acknowledged <==> Reports(results, id) && Answered(reported, device, id))
    && if server.devices[device] == Approved && active.None? && SomeOpen(reported, device) then
         exists i: nat :: IsFirstOpen(reported, device, i)
           && server'.commands == reported[i := reported[i].(status := Delivered)]
           && reply.command == Some(Envelope(reported[i].id, reported[i].body))
       else
         server'.commands == reported && reply.command == None
  }

  /** What the earliest of `results` about `id` says. */
  function FirstFor(results: seq<CommandResult>, id: CommandId): Option<Outcome> {
    if results == [] then None
    else
      var last := results[|results| - 1];
      var before := FirstFor(results[..|results| - 1], id);
      if before.None? && last.id == id then Some(last.outcome) else before
  }

  lemma {:induction false} FirstForIsFirst(results: seq<CommandResult>, id: CommandId)
    ensures FirstFor(results, id).None? <==> forall k :: 0 <= k < |results| ==> results[k].id != id
    ensures FirstFor(results, id).Some? ==>
      exists k :: 0 <= k < |results| && results[k] == CommandResult(id, FirstFor(results, id).value) &&
        (forall j :: 0 <= j < k ==> results[j].id != id)
  {
    if results != [] {
      var n := |results| - 1;
      FirstForIsFirst(results[..n], id);
      assert forall k :: 0 <= k < n ==> results[..n][k] == results[k];
      if FirstFor(results[..n], id).None? && results[n].id == id {
        assert results[n] == CommandResult(id, FirstFor(results, id).value);
      }
    }
  }

  /** A row after a poll of `device` reported `results`: a delivered command takes its first outcome. */
  predicate RowReported(c: Command, c': Command, device: DeviceId, results: seq<CommandResult>) {
    if c.device == device && c.status == Delivered && FirstFor(results, c.id).Some? then
      c' == Command(c.id, c.device, c.body, Finished(FirstFor(results, c.id).value))
    else c' == c
  }

  lemma {:induction false} AllReportedRows(commands: seq<Command>, device: DeviceId, results: seq<CommandResult>)
    ensures |AllReported(commands, device, results)| == |commands|
    ensures forall i :: 0 <= i < |commands| ==> RowReported(commands[i], AllReported(commands, device, results)[i], device, results)
  {
    if results != [] {
      AllReportedRows(commands, device, results[..|results| - 1]);
    }
  }

  predicate Waiting(c: Command, device: DeviceId) {
    c.device == device && (c.status == Queued || c.status == Delivered)
  }

  /** The first row of the device that is queued or delivered, if any, becomes delivered and is handed out. */
  ghost predicate HandsOut(commands: seq<Command>, device: DeviceId, commands': seq<Command>, command: Option<Envelope>) {
    if exists i :: 0 <= i < |commands| && Waiting(commands[i], device) then
      exists i: nat :: i < |commands| && Waiting(commands[i], device) && (forall j :: 0 <= j < i ==> !Waiting(commands[j], device))
        && commands' == commands[i := Command(commands[i].id, device, commands[i].body, Delivered)]
        && command == Some(Envelope(commands[i].id, commands[i].body))
    else commands' == commands && command == None
  }

  /**
   One poll in terms of the rows: delivered commands take their first reported outcome; acknowledged is what the device
   reported and the rows now answer; an idle approved device is handed its first row that still waits.
   */
  ghost predicate PollTaken(server: Server, device: DeviceId, results: seq<CommandResult>, active: Option<CommandId>,
                            server': Server, reply: Reply)
  {
    var reported := AllReported(server.commands, device, results);
    && device in server.devices && server'.devices == server.devices && reply.state == server.devices[device]
    && |reported| == |server.commands|
    && (forall i :: 0 <= i < |reported| ==> RowReported(server.commands[i], reported[i], device, results))
    && (forall id :: id in reply.acknowledged <==>
          (exists k :: 0 <= k < |results| && results[k].id == id) &&
          (exists i :: 0 <= i < |reported| && reported[i].id == id && reported[i].device == device && reported[i].status.Finished?))
    && (if server.devices[device] == Approved && active == None then HandsOut(reported, device, server'.commands, reply.command)
        else server'.commands == reported && reply.command == None)
  }

  lemma FirstOpenHandsOut(commands: seq<Command>, device: DeviceId, i: nat)
    requires IsFirstOpen(commands, device, i)
    ensures HandsOut(commands, device, commands[i := commands[i].(status := Delivered)], Some(Envelope(commands[i].id, commands[i].body)))
  {
    assert Waiting(commands[i], device);
    forall j | 0 <= j < i ensures !Waiting(commands[j], device) { assert !OpenAt(commands, device, j); }
  }

  lemma NothingToHandOut(commands: seq<Command>, device: DeviceId)
    requires forall j :: 0 <= j < |commands| ==> !OpenAt(commands, device, j)
    ensures HandsOut(commands, device, commands, None)
  {
    forall j | 0 <= j < |commands| ensures !Waiting(commands[j], device) { assert !OpenAt(commands, device, j); }
  }

  lemma PolledMeans(server: Server, device: DeviceId, results: seq<CommandResult>, active: Option<CommandId>,
                    server': Server, reply: Reply)
    requires Polled(server, device, results, active, server', reply)
    ensures PollTaken(server, device, results, active, server', reply)
  {
    var reported := AllReported(server.commands, device, results);
    AllReportedRows(server.commands, device, results);
    forall i | 0 <= i < |reported| ensures OpenAt(reported, device, i) <==> Waiting(reported[i], device) {}
    forall id ensures Reports(results, id) <==> exists k :: 0 <= k < |results| && results[k].id == id {
      if Reports(results, id) {
        var r :| r in results && r.id == id;
        var k :| 0 <= k < |results| && results[k] == r;
      }
    }
  }

  /** One element of `queue`'s argument with the random id drawn for it. */
  datatype Order = Order(device: DeviceId, body: Operation, id: CommandId) {
    function Row(): Command { Command(id, device, body, Queued) }
  }

  function Rows(orders: seq<Order>, k: nat): seq<Command>
    requires k <= |orders|
  {
    seq(k, i requires 0 <= i < k => orders[i].Row())
  }

  /** An approved device with fewer than the limit of commands still open. */
  predicate Admitted(devices: map<DeviceId, DeviceState>, commands: seq<Command>, order: Order) {
    order.device in devices && devices[order.device] == Approved && OpenCount(commands, order.device) < PENDING_LIMIT
  }

  /** `UPDATE commands SET status='cancelled' WHERE status='queued'` on one row. */
  function CancelledRow(c: Command): Command {
    if c.status == Queued then c.(status := Cancelled) else c
  }

  function CancelledOne(commands: seq<Command>, id: CommandId): seq<Command> {
    seq(|commands|, i requires 0 <= i < |commands| =>
      if commands[i].id == id then CancelledRow(commands[i]) else commands[i])
  }

  function CancelledDevice(commands: seq<Command>, device: DeviceId): seq<Command> {
    seq(|commands|, i requires 0 <= i < |commands| =>
      if commands[i].device == device then CancelledRow(commands[i]) else commands[i])
  }

  /** `c'` is `c`, cancelled if it was waiting to be dispatched. */
  predicate Withdrawn(c: Command, c': Command) {
    if c.status == Queued then c' == Command(c.id, c.device, c.body, Cancelled) else c' == c
  }

  predicate DistinctIds(commands: seq<Command>) {
    forall i, j :: 0 <= i < j < |commands| ==> commands[i].id != commands[j].id
  }

  function OpenCount(commands: seq<Command>, device: DeviceId): nat {
    if commands == [] then 0
    else OpenCount(commands[..|commands| - 1], device) + (if OpenAt(commands, device, |commands| - 1) then 1 else 0)
  }

  function OpenRows(commands: seq<Command>, device: DeviceId): set<nat> {
    set i: nat | i < |commands| && Waiting(commands[i], device)
  }

  lemma {:induction false} OpenCountCounts(commands: seq<Command>, device: DeviceId)
    ensures OpenCount(commands, device) == |OpenRows(commands, device)|
  {
    if commands != [] {
      var n := |commands| - 1;
      OpenCountCounts(commands[..n], device);
      assert OpenRows(commands, device) == OpenRows(commands[..n], device) + (if Waiting(commands[n], device) then {n} else {});
      assert n !in OpenRows(commands[..n], device);
    }
  }

  /** The admission check in terms of the rows: an approved device with fewer than 256 queued or delivered commands. */
  lemma AdmissionMeans(devices: map<DeviceId, DeviceState>, commands: seq<Command>, order: Order)
    ensures Admitted(devices, commands, order) <==>
      order.device in devices && devices[order.device] == Approved && |OpenRows(commands, order.device)| < 256
  {
    OpenCountCounts(commands, order.device);
  }

  class Store {
    var devices: map<DeviceId, DeviceState>
    var commands: seq<Command>

    function Value(): Server
      reads this
    {
      Server(devices, commands)
    }

    method Poll(device: DeviceId, results: seq<CommandResult>, active: Option<CommandId>) returns (r: Result<Reply>)
      modifies `commands
      ensures r.Err? <==> device !in devices || |results| > 16
      ensures r.Err? ==> commands == old(commands)
      ensures r.Ok? ==> Polled(old(Value()), device, results, active, Value(), r.value)
      ensures r.Ok? ==> PollTaken(old(Value()), device, results, active, Value(), r.value)
    {
      if |results| > RESULT_LIMIT {
        return Err(TooManyResults);
      }
      if device !in devices {
        return Err(NotEnrolled);
      }
      var acknowledged := [];
      for k := 0 to |results|
        invariant commands == AllReported(old(commands), device, results[..k])
        invariant forall id :: id in acknowledged ==> Answered(commands, device, id) && Reports(results, id)
        invariant forall j :: 0 <= j < k && Answered(commands, device, results[j].id) ==> results[j].id in acknowledged
      {
        assert results[..k + 1][..k] == results[..k];
        var before := commands;
        commands := Reported(commands, device, results[k]);
        ReportedKeepsAnswers(before, device, results[k]);
        assert results[k] in results;
        if Answered(commands, device, results[k].id) {
          acknowledged := acknowledged + [results[k].id];
        }
      }
      assert results[..|results|] == results;
      var command := None;
      if devices[device] == Approved && active.None? {
        command := Deliver(device);
      }
      r := Ok(Reply(devices[device], command, acknowledged));
      PolledMeans(old(Value()), device, results, active, Value(), r.value);
    }

    method Deliver(device: DeviceId) returns (command: Option<Envelope>)
      modifies `commands
      ensures if SomeOpen(old(commands), device) then
        exists i: nat :: IsFirstOpen(old(commands), device, i)
          && commands == old(commands)[i := old(commands)[i].(status := Delivered)]
          && command == Some(Envelope(old(commands)[i].id, old(commands)[i].body))
      else commands == old(commands) && command == None
      ensures HandsOut(old(commands), device, commands, command)
    {
      for i := 0 to |commands|
        invariant forall j :: 0 <= j < i ==> !OpenAt(commands, device, j)
        invariant commands == old(commands)
      {
        if commands[i].device == device && Open(commands[i].status) {
          assert IsFirstOpen(old(commands), device, i) && OpenAt(old(commands), device, i);
          FirstOpenHandsOut(old(commands), device, i);
          command := Some(Envelope(commands[i].id, commands[i].body));
          commands := commands[i := commands[i].(status := Delivered)];
          return;
        }
      }
      NothingToHandOut(commands, device);
      command := None;
    }

    /** The check-and-insert of one command inside a `queue` transaction. */
    method QueueOne(order: Order) returns (r: Result<()>)
      modifies `commands
      ensures r.Ok? <==> Admitted(devices, old(commands), order)
      ensures commands == if r.Ok? then old(commands) + [order.Row()] else old(commands)
    {
      if order.device !in devices || devices[order.device] != Approved {
        return Err(NotApproved);
      }
      var count := 0;
      for i := 0 to |commands|
        invariant count == OpenCount(commands[..i], order.device)
      {
        assert commands[..i + 1][..i] == commands[..i];
        if commands[i].device == order.device && Open(commands[i].status) {
          count := count + 1;
        }
      }
      assert commands[..|commands|] == commands;
      if count >= PENDING_LIMIT {
        return Err(QueueFull);
      }
      commands := commands + [order.Row()];
      r := Ok(());
    }

    /** `queue`: all the commands, in the order given, or none of them. */
    method Queue(orders: seq<Order>) returns (r: Result<()>)
      modifies `commands
      ensures r.Ok? <==> forall k :: 0 <= k < |orders| ==> Admitted(devices, old(commands) + Rows(orders, k), orders[k])
      ensures commands == if r.Ok? then old(commands) + Rows(orders, |orders|) else old(commands)
      ensures r.Ok? ==> |commands| == |old(commands)| + |orders| && old(commands) <= commands
      ensures r.Ok? ==> forall k :: 0 <= k < |orders| ==>
        commands[|old(commands)| + k] == Command(orders[k].id, orders[k].device, orders[k].body, Queued)
    {
      var before := commands;
      for k := 0 to |orders|
        invariant commands == before + Rows(orders, k)
        invariant forall j :: 0 <= j < k ==> Admitted(devices, before + Rows(orders, j), orders[j])
      {
        var one := QueueOne(orders[k]);
        if one.Err? {
          assert !Admitted(devices, before + Rows(orders, k), orders[k]);
          commands := before;
          return Err(one.error);
        }
        assert before + Rows(orders, k + 1) == before + Rows(orders, k) + [orders[k].Row()];
      }
      r := Ok(());
    }

    /** Only an undispatched command can be cancelled. */
    method Cancel(id: CommandId) returns (r: Result<()>)
      modifies `commands
      ensures commands == CancelledOne(old(commands), id) && |commands| == |old(commands)|
      ensures forall i :: 0 <= i < |commands| ==>
        if old(commands)[i].id == id then Withdrawn(old(commands)[i], commands[i]) else commands[i] == old(commands)[i]
      ensures r.Ok? <==> exists i :: 0 <= i < |old(commands)| && old(commands)[i].id == id && old(commands)[i].status == Queued
    {
      ghost var before := commands;
      r := Err(NotQueued);
      for i := 0 to |commands|
        invariant |commands| == |before|
        invariant forall j :: 0 <= j < |commands| ==>
          commands[j] == if j < i && before[j].id == id then CancelledRow(before[j]) else before[j]
        invariant r.Ok? <==> exists j :: 0 <= j < i && before[j].id == id && before[j].status == Queued
      {
        if commands[i].id == id && commands[i].status == Queued {
          assert before[i].id == id && before[i].status == Queued;
          CancelAt(i);
          r := Ok(());
        }
      }
      assert commands == CancelledOne(before, id);
    }

    method CancelAt(i: nat)
      requires i < |commands| && commands[i].status == Queued
      modifies `commands
      ensures |commands| == |old(commands)| && commands[i] == CancelledRow(old(commands)[i])
      ensures forall j :: 0 <= j < |commands| && j != i ==> commands[j] == old(commands)[j]
    {
      commands := commands[i := commands[i].(status := Cancelled)];
    }

    /** Revoking a device also cancels what was never dispatched to it. */
    method SetDevice(device: DeviceId, approved: bool) returns (r: Result<()>)
      modifies this
      ensures r.Ok? <==> device in old(devices)
      ensures devices == if r.Ok? then old(devices)[device := if approved then Approved else Revoked] else old(devices)
      ensures commands == if r.Ok? && !approved then CancelledDevice(old(commands), device) else old(commands)
      ensures |commands| == |old(commands)|
      ensures forall i :: 0 <= i < |commands| ==>
        if r.Ok? && !approved && old(commands)[i].device == device then Withdrawn(old(commands)[i], commands[i])
        else commands[i] == old(commands)[i]
      ensures r.Ok? && !approved ==>
        forall i :: 0 <= i < |commands| ==> !(commands[i].device == device && commands[i].status == Queued)
    {
      if device !in devices {
        return Err(NotEnrolled);
      }
      devices := devices[device := if approved then Approved else Revoked];
      if !approved {
        CancelQueued(device);
      }
      r := Ok(());
    }

    method CancelQueued(device: DeviceId)
      modifies `commands
      ensures commands == CancelledDevice(old(commands), device)
    {
      ghost var before := commands;
      for i := 0 to |commands|
        invariant |commands| == |before|
        invariant forall j :: 0 <= j < |commands| ==>
          commands[j] == if j < i && before[j].device == device then CancelledRow(before[j]) else before[j]
      {
        if commands[i].device == device && commands[i].status == Queued {
          CancelAt(i);
        }
      }
      assert commands == CancelledDevice(before, device);
    }
  }

  // ---- The agent's journal ----

  /** A row of `executed`: still executing, or done with a result that may have been acknowledged. */
  datatype Entry = Entry(body: Operation, result: Option<Outcome>, acknowledged: bool)

  type Executed = map<CommandId, Entry>

  /** Opening the journal: whatever was executing when the agent stopped has an uncertain outcome. */
  function Reopened(executed: Executed): Executed {
    map id | id in executed ::
      if executed[id].result.None? then Entry(executed[id].body, Some(Uncertain), false) else executed[id]
  }

  function Acknowledged(executed: Executed, ids: seq<CommandId>): Executed {
    map id | id in executed ::
      if id in ids && executed[id].result.Some? then executed[id].(acknowledged := true) else executed[id]
  }

  /** Output too large for the control channel is reported as a failure. */
  function Bounded(outcome: Outcome, oversized: bool): Outcome {
    if oversized then Failed else outcome
  }

  /** The server sent a known id with different content. */
  predicate Reused(executed: Executed, command: Envelope) {
    command.id in executed && executed[command.id].body != command.operation
  }

  function Started(executed: Executed, command: Envelope): Executed {
    executed[command.id :=
      if command.id in executed then executed[command.id].(acknowledged := false) else Entry(command.operation, None, false)]
  }

  function Concluded(executed: Executed, id: CommandId, outcome: Outcome, oversized: bool): Executed
    requires id in executed
  {
    executed[id := Entry(executed[id].body, Some(Bounded(outcome, oversized)), false)]
  }

  /** What `results` may return: at most one result that was not acknowledged, none only when there is none. */
  predicate Reportable(executed: Executed, results: seq<CommandResult>) {
    && |results| <= 1
    && (results == [] <==> forall id :: id in executed ==> executed[id].result.None? || executed[id].acknowledged)
    && forall r :: r in results ==> r.id in executed && executed[r.id].result == Some(r.outcome) && !executed[r.id].acknowledged
  }

  class Journal {
    var executed: Executed

    constructor ()
      ensures executed == map[]
    {
      executed := map[];
    }

    /** `open`: mark interrupted executions, one row at a time. */
    method Open()
      modifies this
      ensures executed == Reopened(old(executed)) && executed.Keys == old(executed).Keys
      ensures forall id :: id in executed ==>
        executed[id] ==
          if old(executed)[id].result == None then Entry(old(executed)[id].body, Some(Uncertain), false) else old(executed)[id]
    {
      var interrupted := set id | id in executed && executed[id].result.None?;
      while interrupted != {}
        invariant executed.Keys == old(executed).Keys
        invariant interrupted <= set id | id in old(executed) && old(executed)[id].result.None?
        invariant forall id :: id in executed ==>
          executed[id] == if id in interrupted then old(executed)[id] else Reopened(old(executed))[id]
        decreases interrupted
      {
        var id :| id in interrupted;
        interrupted := interrupted - {id};
        Finish(id, Uncertain, false);
      }
      assert executed == Reopened(old(executed));
    }

    /** An outcome is kept, and reported until it is acknowledged; output too large to send becomes a failure. */
    method Finish(id: CommandId, outcome: Outcome, oversized: bool)
      requires id in executed
      modifies this
      ensures executed.Keys == old(executed).Keys && executed[id].body == old(executed)[id].body
      ensures executed[id].result == Some(if oversized then Failed else outcome) && !executed[id].acknowledged
      ensures forall other :: other in executed && other != id ==> executed[other] == old(executed)[other]
      ensures forall results :: Reportable(executed, results) ==> results != []
      ensures executed == Concluded(old(executed), id, outcome, oversized)
    {
      executed := executed[id := Entry(executed[id].body, Some(if oversized then Failed else outcome), false)];
    }

    /** The loop over `reply.acknowledged`. */
    method Acknowledge(ids: seq<CommandId>)
      modifies this
      ensures executed == Acknowledged(old(executed), ids) && executed.Keys == old(executed).Keys
      ensures forall id :: id in executed ==>
        executed[id] ==
          if id in ids && old(executed)[id].result != None then Entry(old(executed)[id].body, old(executed)[id].result, true)
          else old(executed)[id]
    {
      for k := 0 to |ids|
        invariant executed.Keys == old(executed).Keys
        invariant forall id :: id in executed ==>
          executed[id] == if id in ids[..k] && old(executed)[id].result.Some?
            then old(executed)[id].(acknowledged := true) else old(executed)[id]
      {
        if ids[k] in executed && executed[ids[k]].result.Some? {
          executed := executed[ids[k] := executed[ids[k]].(acknowledged := true)];
        }
      }
      assert ids[..|ids|] == ids;
    }

    /** `start`: true exactly for a command never seen before; a repeated one has its result sent again. */
    method Start(command: Envelope) returns (r: Result<bool>)
      modifies this
      ensures r.Err? <==> command.id in old(executed) && old(executed)[command.id].body != command.operation
      ensures r.Ok? ==> (r.value <==> command.id !in old(executed))
      ensures executed == if r.Err? then old(executed) else Started(old(executed), command)
      ensures r.Ok? ==> executed == old(executed)[command.id :=
        if command.id in old(executed) then Entry(command.operation, old(executed)[command.id].result, false)
        else Entry(command.operation, None, false)]
    {
      if command.id in executed {
        if executed[command.id].body != command.operation {
          return Err(CommandReused);
        }
        executed := executed[command.id := executed[command.id].(acknowledged := false)];
        return Ok(false);
      }
      executed := executed[command.id := Entry(command.operation, None, false)];
      r := Ok(true);
    }

    /** `results`: at most one unacknowledged result, any of them. */
    method Results() returns (results: seq<CommandResult>)
      ensures Reportable(executed, results) && |results| <= 1
      ensures results == [] <==> forall id :: id in executed ==> executed[id].result == None || executed[id].acknowledged
      ensures forall r :: r in results ==> r.id in executed && executed[r.id].result == Some(r.outcome) && !executed[r.id].acknowledged
    {
      var waiting := set id | id in executed && executed[id].result.Some? && !executed[id].acknowledged;
      if waiting == {} {
        assert forall id :: id in executed ==> id !in waiting;
        return [];
      }
      var id :| id in waiting;
      results := [CommandResult(id, executed[id].result.value)];
    }
  }

  /** A reply the loop stops on: "unexpected central command" or "reused a command ID". */
  predicate Refused(executed: Executed, worker: Option<CommandId>, reply: Reply) {
    reply.command.Some?
    && (reply.state != Approved || worker.Some? || Reused(Acknowledged(executed, reply.acknowledged), reply.command.value))
  }

  /** The part of `run`'s loop that acts on a reply. */
  class Runner {
    const journal: Journal
    var worker: Option<CommandId>

    constructor ()
      ensures worker == None && fresh(journal) && journal.executed == map[]
    {
      journal := new Journal();
      worker := None;
    }

    /** Spawns a worker exactly for a command that the journal did not know. */
    method Handle(reply: Reply) returns (r: Result<bool>)
      modifies this, journal
      ensures r.Err? <==> Refused(old(journal.executed), old(worker), reply)
      ensures r.Err? <==>
        && reply.command != None
        && (reply.state != Approved || old(worker) != None
            || (reply.command.value.id in old(journal.executed)
                && old(journal.executed)[reply.command.value.id].body != reply.command.value.operation))
      ensures r == Ok(true) <==> r.Ok? && reply.command.Some? && reply.command.value.id !in old(journal.executed)
      ensures worker == if r == Ok(true) then Some(reply.command.value.id) else old(worker)
      ensures var acknowledged := Acknowledged(old(journal.executed), reply.acknowledged);
        journal.executed == if r.Ok? && reply.command.Some? then Started(acknowledged, reply.command.value) else acknowledged
    {
      journal.Acknowledge(reply.acknowledged);
      if reply.command.None? {
        return Ok(false);
      }
      if reply.state != Approved || worker.Some? {
        return Err(UnexpectedCommand);
      }
      var spawned :- journal.Start(reply.command.value);
      if spawned {
        worker := Some(reply.command.value.id);
      }
      r := Ok(spawned);
    }
  }
}
