// What the node table says about a session: over every run of the table, a
// node tells exactly of what its own session did since it was registered.
module PeerHistory {
  import opened Common
  import opened PeerNodes

  // An update by the session that owns the node.
  predicate Own(e: TableEvent, id: string, session: nat) {
    (e.Disconnects? || e.Touches? || e.Records?) && e.id == id && e.session == session
  }

  // The registration that made the node and the updates of its session since.
  ghost function Log(tables: seq<HostTable>, events: seq<TableEvent>, id: string, n: nat): (log: seq<TableEvent>)
    requires n < |tables| == |events| + 1
  {
    if n == 0 || id !in tables[n].nodes then []
    else
      var e := events[n - 1];
      if e.Registers? && e.id == id && tables[n].generation != tables[n - 1].generation then [e]
      else
        var earlier := Log(tables, events, id, n - 1);
        if Own(e, id, tables[n].nodes[id].generation) then earlier + [e] else earlier
  }

  // How many notes of the log had that outcome.
  function Outcomes(log: seq<TableEvent>, result: Result): (n: nat) {
    if log == [] then 0
    else
      var last := log[|log| - 1];
      Outcomes(log[..|log| - 1], result) + (if last.Records? && last.result == result then 1 else 0)
  }

  function Notes(log: seq<TableEvent>): (n: nat) {
    if log == [] then 0 else Notes(log[..|log| - 1]) + (if log[|log| - 1].Records? then 1 else 0)
  }

  function Channels(log: seq<TableEvent>): (channels: set<nat>) {
    set e | e in log && e.Records? && 1 <= e.channel <= 16 :: e.channel
  }

  // When the session was last heard of, and when it was last gone.
  function Heard(log: seq<TableEvent>): (time: int) {
    if log == [] then 0
    else if log[|log| - 1].Disconnects? then Heard(log[..|log| - 1])
    else log[|log| - 1].now
  }

  function Gone(log: seq<TableEvent>): (time: Option<int>) {
    if log == [] then None
    else if log[|log| - 1].Disconnects? then Some(log[|log| - 1].now)
    else Gone(log[..|log| - 1])
  }

  // The node's fields are those of its session's log.
  ghost predicate Tells(node: Node, log: seq<TableEvent>) {
    && log != [] && log[0].Registers? && node.connectedAt == log[0].now
    && node.received == Notes(log)
    && node.accepted == Outcomes(log, WasAccepted) && node.rejected == Outcomes(log, WasRejected)
    && node.duplicate == Outcomes(log, WasDuplicate) && node.stale == Outcomes(log, WasStale)
    && node.channels == Channels(log)
    && node.lastSeenAt == Heard(log)
    && (node.connected <==> Gone(log).None?)
    && (Gone(log).Some? ==> node.disconnectedAt == Gone(log).value)
    && node.connection == if Gone(log).None? then Some(log[0].connection) else None
  }

  lemma LogGrows(log: seq<TableEvent>, e: TableEvent)
    ensures forall result :: Outcomes(log + [e], result) == Outcomes(log, result) + if e.Records? && e.result == result then 1 else 0
    ensures Notes(log + [e]) == Notes(log) + if e.Records? then 1 else 0
    ensures Heard(log + [e]) == if e.Disconnects? then Heard(log) else e.now
    ensures Gone(log + [e]) == if e.Disconnects? then Some(e.now) else Gone(log)
    ensures Channels(log + [e]) == Channels(log) + if e.Records? && 1 <= e.channel <= 16 then {e.channel} else {}
  {
    assert (log + [e])[..|log|] == log;
    forall c ensures c in Channels(log + [e]) <==>
                     c in Channels(log) + if e.Records? && 1 <= e.channel <= 16 then {e.channel} else {} {
      assert forall x :: x in log + [e] <==> x in log || x == e;
    }
  }

  lemma RegisteredTells(now: int, generation: nat, connection: nat, id: string)
    ensures Tells(NewNode(now, generation, connection), [Registers(id, now, connection)])
  {
    var e := Registers(id, now, connection);
    LogGrows([], e);
    assert [] + [e] == [e];
  }

  lemma UpdateTells(nodes: Table, id: string, session: nat, e: TableEvent, log: seq<TableEvent>, after: Table)
    requires id in nodes && nodes[id].generation == session && Own(e, id, session) && Tells(nodes[id], log)
    requires after == match e
                      case Disconnects(_, _, now) => Disconnect(nodes, id, session, now)
                      case Touches(_, _, now) => Touch(nodes, id, session, now)
                      case Records(_, _, result, channel, now) => Record(nodes, id, session, result, channel, now)
    ensures id in after && Tells(after[id], log + [e])
  {
    LogGrows(log, e);
  }

  // A node that a registration or a listing keeps is unchanged, unless it is
  // the one registered.
  lemma RegistrationTells(l: Limits, t: HostTable, e: TableEvent, after: HostTable, id: string)
    requires e.Registers? && Steps(l, t, e, after) && id in after.nodes
    ensures if e.id == id && after.generation != t.generation
            then after.nodes[id] == NewNode(e.now, t.generation + 1, e.connection)
            else id in t.nodes && after.nodes[id] == t.nodes[id]
  {
    RegisteredOver(l, t, e.now - l.recentTtl, e.id, NewNode(e.now, t.generation + 1, e.connection), after, id);
  }

  lemma RegisteredOver(l: Limits, t: HostTable, cutoff: int, id: string, node: Node, after: HostTable, other: string)
    requires Registration(l, t, cutoff, id, node, after) && node.generation == t.generation + 1 && other in after.nodes
    ensures if id == other && after.generation != t.generation then after.nodes[other] == node
            else other in t.nodes && after.nodes[other] == t.nodes[other]
  {
    var pruned: Table :| RegistersOver(l, t, cutoff, pruned, id, node, after);
    PrunedOthers(t.nodes, cutoff, l.recentCapacity, pruned, other);
  }

  lemma StepTells(l: Limits, t: HostTable, e: TableEvent, after: HostTable, id: string, log: seq<TableEvent>)
    requires Steps(l, t, e, after) && id in after.nodes
    requires id in t.nodes ==> Tells(t.nodes[id], log)
    ensures Tells(after.nodes[id],
                  if e.Registers? && e.id == id && after.generation != t.generation then [e]
                  else if Own(e, id, after.nodes[id].generation) then log + [e] else log)
  {
    match e
    case Registers(other, now, connection) =>
      RegistrationTells(l, t, e, after, id);
      RegisteredTells(now, t.generation + 1, connection, other);
    case Lists(now) => PrunedOthers(t.nodes, now - l.recentTtl, l.recentCapacity, after.nodes, id);
    case _ =>
      if Own(e, id, t.nodes[id].generation) {
        UpdateTells(t.nodes, id, t.nodes[id].generation, e, log, after.nodes);
      }
  }

  // In every run each node tells of its own session and no other: when it
  // connected and was last heard of, whether and when it left, how many notes
  // it sent and how many had each outcome, and on which channels.
  lemma {:induction false} NodesTellTheirSessions(l: Limits, tables: seq<HostTable>, events: seq<TableEvent>, id: string, n: nat)
    requires IsRun(l, tables, events) && n < |tables| && id in tables[n].nodes
    ensures Tells(tables[n].nodes[id], Log(tables, events, id, n))
    decreases n
  {
    if n > 0 {
      var m: nat := n - 1;
      if id in tables[m].nodes { NodesTellTheirSessions(l, tables, events, id, m); }
      assert StepsAt(l, tables, events, m);
      StepTells(l, tables[m], events[m], tables[n], id, Log(tables, events, id, m));
    }
  }
}
