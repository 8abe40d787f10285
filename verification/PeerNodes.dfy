// The table of connected and recently disconnected edges.
module PeerNodes {
  import opened Common

  datatype Node = Node(
    connected: bool,
    connectedAt: int,
    disconnectedAt: int,
    lastSeenAt: int,
    received: nat,
    accepted: nat,
    rejected: nat,
    duplicate: nat,
    stale: nat,
    channels: set<nat>,
    generation: nat,
    connection: Option<nat>)

  type Table = map<string, Node>

  datatype Limits = Limits(maximumConnections: int, recentCapacity: int, recentTtl: int)

  ghost predicate ValidLimits(l: Limits) {
    0 < l.maximumConnections <= l.recentCapacity && l.recentTtl > 0
  }

  function Connected(nodes: Table): (ids: set<string>) {
    set id | id in nodes && nodes[id].connected
  }

  // Every note received had exactly one outcome.
  predicate Balanced(n: Node) {
    n.received == n.accepted + n.rejected + n.duplicate + n.stale
  }

  ghost predicate TableOk(l: Limits, nodes: Table, generation: nat) {
    && |Connected(nodes)| <= l.maximumConnections
    && |nodes| <= l.recentCapacity
    && forall id | id in nodes :: Balanced(nodes[id]) && nodes[id].generation <= generation
  }

  // ----------------------------------------------------------------- pruning

  predicate Expired(n: Node, cutoff: int) {
    !n.connected && n.disconnectedAt < cutoff
  }

  ghost predicate Subtable(part: Table, whole: Table) {
    forall id | id in part :: id in whole && part[id] == whole[id]
  }

  // Pruning, whatever the size: connected nodes stay, expired ones go, and of
  // the others the latest stay.
  ghost predicate Loosely(nodes: Table, cutoff: int, kept: Table) {
    && Subtable(kept, nodes)
    && (forall id | id in nodes && nodes[id].connected :: id in kept)
    && (forall id | id in kept :: !Expired(nodes[id], cutoff))
    && (forall id, other | id in nodes && id !in kept && !Expired(nodes[id], cutoff) && other in kept && !kept[other].connected ::
          nodes[id].disconnectedAt <= kept[other].disconnectedAt)
  }

  // What pruning keeps: every connected node, and of the disconnected ones
  // that are recent enough the latest, as many as the capacity allows.
  ghost predicate Pruned(nodes: Table, cutoff: int, capacity: int, kept: Table) {
    var recent := map id | id in nodes && !Expired(nodes[id], cutoff) :: nodes[id];
    && Loosely(nodes, cutoff, kept)
    && (|kept| <= capacity || forall id | id in kept :: kept[id].connected)
    && (|kept| >= capacity || kept == recent)
  }

  // Drops the nodes that disconnected before the cutoff.
  method DropExpired(nodes: Table, cutoff: int) returns (kept: Table)
    ensures kept == map id | id in nodes && !Expired(nodes[id], cutoff) :: nodes[id]
  {
    kept := nodes;
    var todo := nodes.Keys;
    while todo != {}
      invariant todo <= nodes.Keys
      invariant kept == map id | id in nodes && (id in todo || !Expired(nodes[id], cutoff)) :: nodes[id]
      decreases |todo|
    {
      var id :| id in todo;
      if Expired(nodes[id], cutoff) { kept := kept - {id}; }
      todo := todo - {id};
    }
  }

  // The disconnected node that left first.
  method OldestDisconnected(nodes: Table) returns (oldest: Option<string>)
    ensures oldest.None? <==> forall id | id in nodes :: nodes[id].connected
    ensures oldest.Some? ==> oldest.value in nodes && !nodes[oldest.value].connected
    ensures oldest.Some? ==>
              forall id | id in nodes && !nodes[id].connected :: nodes[oldest.value].disconnectedAt <= nodes[id].disconnectedAt
  {
    oldest := None;
    var todo := nodes.Keys;
    while todo != {}
      invariant todo <= nodes.Keys
      invariant oldest.None? ==> forall id | id in nodes && id !in todo :: nodes[id].connected
      invariant oldest.Some? ==> oldest.value in nodes && !nodes[oldest.value].connected
      invariant oldest.Some? ==> forall id | id in nodes && id !in todo && !nodes[id].connected ::
                  nodes[oldest.value].disconnectedAt <= nodes[id].disconnectedAt
      decreases |todo|
    {
      var id :| id in todo;
      if !nodes[id].connected && (oldest.None? || nodes[id].disconnectedAt < nodes[oldest.value].disconnectedAt) {
        oldest := Some(id);
      }
      todo := todo - {id};
    }
  }

  lemma DropOldestPrunes(nodes: Table, cutoff: int, capacity: int, kept: Table, oldest: string)
    requires Loosely(nodes, cutoff, kept) && |kept| > capacity
    requires oldest in kept && !kept[oldest].connected
    requires forall id | id in kept && !kept[id].connected :: kept[oldest].disconnectedAt <= kept[id].disconnectedAt
    ensures Loosely(nodes, cutoff, kept - {oldest}) && |kept - {oldest}| == |kept| - 1
  {
    assert (kept - {oldest}).Keys == kept.Keys - {oldest};
  }

  method PruneNodes(nodes: Table, cutoff: int, capacity: int) returns (kept: Table)
    ensures Pruned(nodes, cutoff, capacity, kept)
  {
    kept := DropExpired(nodes, cutoff);
    if |kept| <= capacity { return; }
    var oldest := OldestDisconnected(kept);
    while |kept| > capacity && oldest.Some?
      invariant Loosely(nodes, cutoff, kept) && |kept| >= capacity
      invariant oldest.None? <==> forall id | id in kept :: kept[id].connected
      invariant oldest.Some? ==> oldest.value in kept && !kept[oldest.value].connected
      invariant oldest.Some? ==>
                  forall id | id in kept && !kept[id].connected :: kept[oldest.value].disconnectedAt <= kept[id].disconnectedAt
      decreases |kept|
    {
      DropOldestPrunes(nodes, cutoff, capacity, kept, oldest.value);
      kept := kept - {oldest.value};
      oldest := OldestDisconnected(kept);
    }
  }

  // ------------------------------------------------------------ registration

  function NewNode(now: int, generation: nat, connection: nat): (n: Node) {
    Node(true, now, 0, now, 0, 0, 0, 0, 0, {}, generation, Some(connection))
  }

  // Others are unchanged or, if disconnected, gone.
  ghost predicate OthersKept(nodes: Table, after: Table, id: string) {
    && (forall other | other in after && other != id :: other in nodes && after[other] == nodes[other])
    && (forall other | other in nodes && other != id && nodes[other].connected :: other in after)
  }

  lemma PrunedConnections(nodes: Table, cutoff: int, capacity: int, kept: Table)
    requires Pruned(nodes, cutoff, capacity, kept)
    ensures Connected(kept) == Connected(nodes)
  {
    forall id ensures id in Connected(kept) <==> id in Connected(nodes) { }
  }

  lemma PrunedSize(nodes: Table, cutoff: int, capacity: int, kept: Table, maximum: int)
    requires Pruned(nodes, cutoff, capacity, kept) && |Connected(nodes)| <= maximum <= capacity
    ensures |kept| <= capacity
  {
    PrunedConnections(nodes, cutoff, capacity, kept);
    if forall id | id in kept :: kept[id].connected {
      assert kept.Keys == Connected(kept);
      assert |kept| == |kept.Keys|;
    }
  }

  lemma PrunedOk(l: Limits, nodes: Table, cutoff: int, kept: Table, generation: nat)
    requires ValidLimits(l) && Pruned(nodes, cutoff, l.recentCapacity, kept)
    requires |Connected(nodes)| <= l.maximumConnections
    requires forall id | id in nodes :: Balanced(nodes[id]) && nodes[id].generation <= generation
    ensures TableOk(l, kept, generation)
  {
    PrunedConnections(nodes, cutoff, l.recentCapacity, kept);
    PrunedSize(nodes, cutoff, l.recentCapacity, kept, l.maximumConnections);
  }

  lemma ConnectsOne(nodes: Table, id: string, node: Node)
    requires node.connected
    ensures Connected(nodes[id := node]) == Connected(nodes) - {id} + {id}
    ensures |Connected(nodes[id := node])| == |Connected(nodes) - {id}| + 1
  {
    assert Connected(nodes[id := node]) == Connected(nodes) - {id} + {id};
  }

  lemma CountsOne(todo: set<string>, wanted: set<string>, other: string)
    requires other in todo
    ensures |todo * wanted| == |(todo - {other}) * wanted| + (if other in wanted then 1 else 0)
  {
    if other in wanted {
      assert todo * wanted == (todo - {other}) * wanted + {other};
    } else {
      assert todo * wanted == (todo - {other}) * wanted;
    }
  }

  method CountOthers(nodes: Table, id: string) returns (count: nat)
    ensures count == |Connected(nodes) - {id}|
  {
    count := 0;
    var todo := nodes.Keys;
    ghost var wanted := Connected(nodes) - {id};
    assert todo * wanted == wanted;
    while todo != {}
      invariant todo <= nodes.Keys && count + |todo * wanted| == |wanted|
      decreases |todo|
    {
      var other :| other in todo;
      CountsOne(todo, wanted, other);
      if other != id && nodes[other].connected { count := count + 1; }
      todo := todo - {other};
    }
    assert todo * wanted == {};
  }

  // Pruning, adding a node and pruning again.
  lemma RegisteredOthers(nodes: Table, cutoff: int, capacity: int, pruned: Table, id: string, node: Node, after: Table)
    requires Pruned(nodes, cutoff, capacity, pruned) && node.connected
    requires Pruned(pruned[id := node], cutoff, capacity, after)
    ensures OthersKept(nodes, after, id) && id in after && after[id] == node
  {
    var added := pruned[id := node];
    assert added[id].connected;
    forall other | other in nodes && other != id && nodes[other].connected
      ensures other in after
    {
      assert other in pruned && added[other].connected;
    }
  }

  lemma RegisteredOk(l: Limits, nodes: Table, generation: nat, cutoff: int, pruned: Table, id: string, node: Node, after: Table)
    requires ValidLimits(l) && TableOk(l, nodes, generation) && Pruned(nodes, cutoff, l.recentCapacity, pruned)
    requires node.connected && Balanced(node) && node.generation == generation + 1
    requires |Connected(nodes) - {id}| < l.maximumConnections
    requires Pruned(pruned[id := node], cutoff, l.recentCapacity, after)
    ensures TableOk(l, after, generation + 1)
  {
    PrunedConnections(nodes, cutoff, l.recentCapacity, pruned);
    ConnectsOne(pruned, id, node);
    PrunedOk(l, pruned[id := node], cutoff, after, generation + 1);
  }

  lemma PrunedOthers(nodes: Table, cutoff: int, capacity: int, pruned: Table, id: string)
    requires Pruned(nodes, cutoff, capacity, pruned)
    ensures OthersKept(nodes, pruned, id)
    ensures id in nodes && nodes[id].connected <==> id in pruned && pruned[id].connected
    ensures id in pruned ==> id in nodes && pruned[id] == nodes[id]
  {
  }

  // Registers a connection under its instance name, replacing an earlier one.
  method Register(l: Limits, nodes: Table, generation: nat, id: string, now: int, connection: nat)
    returns (after: Table, next: nat, replaced: Option<nat>, ok: bool)
    requires ValidLimits(l) && TableOk(l, nodes, generation)
    ensures TableOk(l, after, next)
    ensures ok <==> |Connected(nodes) - {id}| < l.maximumConnections
    ensures next == if ok then generation + 1 else generation
    ensures OthersKept(nodes, after, id)
    ensures ok ==> id in after && after[id] == NewNode(now, next, connection)
    ensures ok ==> replaced == if id in nodes && nodes[id].connected then nodes[id].connection else None
    ensures Registration(l, HostTable(nodes, generation), now - l.recentTtl, id, NewNode(now, generation + 1, connection),
                         HostTable(after, next))
  {
    var cutoff := now - l.recentTtl;
    var pruned := PruneNodes(nodes, cutoff, l.recentCapacity);
    PrunedConnections(nodes, cutoff, l.recentCapacity, pruned);
    PrunedOthers(nodes, cutoff, l.recentCapacity, pruned, id);
    var others := CountOthers(pruned, id);
    if others >= l.maximumConnections {
      PrunedOk(l, nodes, cutoff, pruned, generation);
      assert RegistersOver(l, HostTable(nodes, generation), cutoff, pruned, id, NewNode(now, generation + 1, connection),
                           HostTable(pruned, generation));
      return pruned, generation, None, false;
    }
    next, ok := generation + 1, true;
    var node := NewNode(now, next, connection);
    after := PruneNodes(pruned[id := node], cutoff, l.recentCapacity);
    RegisteredOk(l, nodes, generation, cutoff, pruned, id, node, after);
    RegisteredOthers(nodes, cutoff, l.recentCapacity, pruned, id, node, after);
    assert RegistersOver(l, HostTable(nodes, generation), cutoff, pruned, id, node, HostTable(after, next));
    replaced := if id in pruned && pruned[id].connected then pruned[id].connection else None;
  }

  // ------------------------------------------------------- guarded updates

  // The session that owns the node.
  predicate Owns(nodes: Table, id: string, generation: nat) {
    id in nodes && nodes[id].generation == generation
  }

  function Disconnect(nodes: Table, id: string, generation: nat, now: int): (after: Table) {
    if !Owns(nodes, id, generation) then nodes
    else nodes[id := nodes[id].(connected := false, disconnectedAt := now, connection := None)]
  }

  function Touch(nodes: Table, id: string, generation: nat, now: int): (after: Table) {
    if !Owns(nodes, id, generation) then nodes else nodes[id := nodes[id].(lastSeenAt := now)]
  }

  datatype Result = WasAccepted | WasRejected | WasDuplicate | WasStale

  function Count(n: Node, result: Result): (counted: Node) {
    match result
    case WasAccepted => n.(received := n.received + 1, accepted := n.accepted + 1)
    case WasRejected => n.(received := n.received + 1, rejected := n.rejected + 1)
    case WasDuplicate => n.(received := n.received + 1, duplicate := n.duplicate + 1)
    case WasStale => n.(received := n.received + 1, stale := n.stale + 1)
  }

  function Record(nodes: Table, id: string, generation: nat, result: Result, channel: nat, now: int): (after: Table) {
    if !Owns(nodes, id, generation) then nodes else nodes[id := Recorded(nodes[id], result, channel, now)]
  }

  function Recorded(n: Node, result: Result, channel: nat, now: int): (recorded: Node) {
    var counted := Count(n, result).(lastSeenAt := now);
    if 1 <= channel <= 16 then counted.(channels := counted.channels + {channel}) else counted
  }

  // The bookkeeping for one note, field by field.
  method RecordNode(n: Node, result: Result, channel: nat, now: int) returns (node: Node)
    ensures node == Recorded(n, result, channel, now)
    ensures node.received == n.received + 1 && (Balanced(n) ==> Balanced(node))
  {
    node := n.(lastSeenAt := now, received := n.received + 1);
    if 1 <= channel <= 16 { node := node.(channels := node.channels + {channel}); }
    match result {
      case WasAccepted => node := node.(accepted := node.accepted + 1);
      case WasDuplicate => node := node.(duplicate := node.duplicate + 1);
      case WasStale => node := node.(stale := node.stale + 1);
      case WasRejected => node := node.(rejected := node.rejected + 1);
    }
  }

  lemma ReplacedNodeKeeps(l: Limits, nodes: Table, generation: nat, id: string, node: Node)
    requires TableOk(l, nodes, generation) && id in nodes
    requires node.connected ==> nodes[id].connected
    requires Balanced(node) && node.generation == nodes[id].generation
    ensures TableOk(l, nodes[id := node], generation)
  {
    var after := nodes[id := node];
    assert Connected(after) <= Connected(nodes);
    SubsetSize(Connected(after), Connected(nodes));
    assert after.Keys == nodes.Keys;
    assert |after| == |after.Keys| && |nodes| == |nodes.Keys|;
  }

  // Every update of a session keeps the bounds and the balance.
  lemma UpdatesKeep(l: Limits, nodes: Table, generation: nat, id: string, session: nat, now: int)
    requires TableOk(l, nodes, generation)
    ensures TableOk(l, Disconnect(nodes, id, session, now), generation)
    ensures TableOk(l, Touch(nodes, id, session, now), generation)
  {
    if Owns(nodes, id, session) {
      ReplacedNodeKeeps(l, nodes, generation, id, Disconnect(nodes, id, session, now)[id]);
      ReplacedNodeKeeps(l, nodes, generation, id, Touch(nodes, id, session, now)[id]);
    }
  }

  // Each recorded note counts once, under one outcome, for its own node.
  lemma RecordKeeps(l: Limits, nodes: Table, generation: nat, id: string, session: nat, result: Result, channel: nat, now: int)
    requires TableOk(l, nodes, generation)
    ensures TableOk(l, Record(nodes, id, session, result, channel, now), generation)
  {
    if Owns(nodes, id, session) {
      ReplacedNodeKeeps(l, nodes, generation, id, Recorded(nodes[id], result, channel, now));
    }
  }

  // ------------------------------------------------------------------- runs

  datatype HostTable = HostTable(nodes: Table, generation: nat)

  datatype TableEvent =
    | Registers(id: string, now: int, connection: nat)
    | Disconnects(id: string, session: nat, now: int)
    | Touches(id: string, session: nat, now: int)
    | Records(id: string, session: nat, result: Result, channel: nat, now: int)
    | Lists(now: int)

  // What each event may do to the table; pruning may break ties either way.
  ghost predicate Steps(l: Limits, t: HostTable, e: TableEvent, after: HostTable) {
    match e
    case Registers(id, now, connection) =>
      Registration(l, t, now - l.recentTtl, id, NewNode(now, t.generation + 1, connection), after)
    case Disconnects(id, session, now) => after == t.(nodes := Disconnect(t.nodes, id, session, now))
    case Touches(id, session, now) => after == t.(nodes := Touch(t.nodes, id, session, now))
    case Records(id, session, result, channel, now) =>
      after == t.(nodes := Record(t.nodes, id, session, result, channel, now))
    case Lists(now) =>
      after.generation == t.generation && Pruned(t.nodes, now - l.recentTtl, l.recentCapacity, after.nodes)
  }

  ghost predicate Registration(l: Limits, t: HostTable, cutoff: int, id: string, node: Node, after: HostTable) {
    exists pruned: Table :: RegistersOver(l, t, cutoff, pruned, id, node, after)
  }

  // Registration of a node over the table that the first pruning leaves.
  ghost predicate RegistersOver(l: Limits, t: HostTable, cutoff: int, pruned: Table, id: string, node: Node, after: HostTable) {
    && Pruned(t.nodes, cutoff, l.recentCapacity, pruned)
    && if |Connected(pruned) - {id}| >= l.maximumConnections then after == HostTable(pruned, t.generation)
       else after.generation == node.generation && Pruned(pruned[id := node], cutoff, l.recentCapacity, after.nodes)
  }

  lemma RegistersOverOk(l: Limits, t: HostTable, cutoff: int, pruned: Table, id: string, node: Node, after: HostTable)
    requires ValidLimits(l) && TableOk(l, t.nodes, t.generation)
    requires RegistersOver(l, t, cutoff, pruned, id, node, after)
    requires node.connected && Balanced(node) && node.generation == t.generation + 1
    ensures TableOk(l, after.nodes, after.generation)
  {
    PrunedConnections(t.nodes, cutoff, l.recentCapacity, pruned);
    if |Connected(pruned) - {id}| >= l.maximumConnections {
      PrunedOk(l, t.nodes, cutoff, pruned, t.generation);
    } else {
      RegisteredOk(l, t.nodes, t.generation, cutoff, pruned, id, node, after.nodes);
    }
  }

  lemma RegistersOverOthers(l: Limits, t: HostTable, cutoff: int, pruned: Table, id: string, node: Node, after: HostTable)
    requires RegistersOver(l, t, cutoff, pruned, id, node, after) && node.connected
    ensures OthersKept(t.nodes, after.nodes, id)
  {
    if |Connected(pruned) - {id}| >= l.maximumConnections {
      PrunedOthers(t.nodes, cutoff, l.recentCapacity, pruned, id);
    } else {
      RegisteredOthers(t.nodes, cutoff, l.recentCapacity, pruned, id, node, after.nodes);
    }
  }

  lemma RegistrationKeeps(l: Limits, t: HostTable, cutoff: int, id: string, node: Node, after: HostTable)
    requires ValidLimits(l) && TableOk(l, t.nodes, t.generation) && Registration(l, t, cutoff, id, node, after)
    requires node.connected && Balanced(node) && node.generation == t.generation + 1
    ensures TableOk(l, after.nodes, after.generation) && OthersKept(t.nodes, after.nodes, id)
  {
    var pruned: Table :| RegistersOver(l, t, cutoff, pruned, id, node, after);
    RegistersOverOk(l, t, cutoff, pruned, id, node, after);
    RegistersOverOthers(l, t, cutoff, pruned, id, node, after);
  }

  lemma ListingKeeps(l: Limits, t: HostTable, now: int, after: HostTable)
    requires ValidLimits(l) && TableOk(l, t.nodes, t.generation) && Steps(l, t, Lists(now), after)
    ensures TableOk(l, after.nodes, after.generation)
  {
    PrunedOk(l, t.nodes, now - l.recentTtl, after.nodes, t.generation);
  }

  lemma RegisteringKeeps(l: Limits, t: HostTable, id: string, now: int, connection: nat, after: HostTable)
    requires ValidLimits(l) && TableOk(l, t.nodes, t.generation) && Steps(l, t, Registers(id, now, connection), after)
    ensures TableOk(l, after.nodes, after.generation) && OthersKept(t.nodes, after.nodes, id)
  {
    RegistrationKeeps(l, t, now - l.recentTtl, id, NewNode(now, t.generation + 1, connection), after);
  }

  lemma TableStepKeeps(l: Limits, t: HostTable, e: TableEvent, after: HostTable)
    requires ValidLimits(l) && TableOk(l, t.nodes, t.generation) && Steps(l, t, e, after)
    ensures TableOk(l, after.nodes, after.generation)
  {
    match e
    case Registers(id, now, connection) => RegisteringKeeps(l, t, id, now, connection, after);
    case Disconnects(id, session, now) => UpdatesKeep(l, t.nodes, t.generation, id, session, now);
    case Touches(id, session, now) => UpdatesKeep(l, t.nodes, t.generation, id, session, now);
    case Records(id, session, result, channel, now) =>
      RecordKeeps(l, t.nodes, t.generation, id, session, result, channel, now);
    case Lists(now) => ListingKeeps(l, t, now, after);
  }

  ghost predicate IsRun(l: Limits, tables: seq<HostTable>, events: seq<TableEvent>) {
    && |tables| == |events| + 1 && tables[0] == HostTable(map[], 0)
    && forall i | 0 <= i < |events| :: StepsAt(l, tables, events, i)
  }

  ghost predicate StepsAt(l: Limits, tables: seq<HostTable>, events: seq<TableEvent>, i: nat)
    requires i < |events| && i + 1 < |tables|
  {
    Steps(l, tables[i], events[i], tables[i + 1])
  }

  // Over every run: connected nodes within the connection limit, all nodes
  // within the capacity, and each note received counted under one outcome.
  lemma {:induction false} RunsStayBounded(l: Limits, tables: seq<HostTable>, events: seq<TableEvent>, i: nat)
    requires ValidLimits(l) && IsRun(l, tables, events) && i < |tables|
    ensures TableOk(l, tables[i].nodes, tables[i].generation)
    decreases i
  {
    if i == 0 {
      assert Connected(tables[0].nodes) == {};
    } else {
      RunsStayBounded(l, tables, events, i - 1);
      assert StepsAt(l, tables, events, i - 1);
      TableStepKeeps(l, tables[i - 1], events[i - 1], tables[i]);
    }
  }

  // Whatever the session of generation `g` still does changes no table.
  ghost predicate Inert(nodes: Table, id: string, g: nat) {
    && (forall now :: Disconnect(nodes, id, g, now) == nodes && Touch(nodes, id, g, now) == nodes)
    && (forall result, channel, now :: Record(nodes, id, g, result, channel, now) == nodes)
  }

  lemma RegistrationOwners(l: Limits, t: HostTable, cutoff: int, id: string, node: Node, after: HostTable, other: string, g: nat)
    requires Registration(l, t, cutoff, id, node, after) && node.generation == t.generation + 1
    requires g <= t.generation && !Owns(t.nodes, other, g)
    ensures g <= after.generation && !Owns(after.nodes, other, g)
  {
    var pruned: Table :| RegistersOver(l, t, cutoff, pruned, id, node, after);
    assert !Owns(pruned, other, g);
    assert !Owns(pruned[id := node], other, g);
  }

  // Updates of a session change no generation.
  lemma UpdatesKeepOwners(nodes: Table, id: string, session: nat, result: Result, channel: nat, now: int, other: string, g: nat)
    ensures Owns(Disconnect(nodes, id, session, now), other, g) <==> Owns(nodes, other, g)
    ensures Owns(Touch(nodes, id, session, now), other, g) <==> Owns(nodes, other, g)
    ensures Owns(Record(nodes, id, session, result, channel, now), other, g) <==> Owns(nodes, other, g)
  {
  }

  lemma ListingOwners(l: Limits, t: HostTable, now: int, after: HostTable, id: string, g: nat)
    requires Steps(l, t, Lists(now), after) && !Owns(t.nodes, id, g)
    ensures after.generation == t.generation && !Owns(after.nodes, id, g)
  {
    PrunedOthers(t.nodes, now - l.recentTtl, l.recentCapacity, after.nodes, id);
  }

  lemma RegisteringOwners(l: Limits, t: HostTable, id: string, now: int, connection: nat, after: HostTable, other: string, g: nat)
    requires Steps(l, t, Registers(id, now, connection), after) && g <= t.generation && !Owns(t.nodes, other, g)
    ensures g <= after.generation && !Owns(after.nodes, other, g)
  {
    RegistrationOwners(l, t, now - l.recentTtl, id, NewNode(now, t.generation + 1, connection), after, other, g);
  }

  // No step gives a node back to a generation that was handed out before.
  lemma OwnersStayGone(l: Limits, t: HostTable, e: TableEvent, after: HostTable, id: string, g: nat)
    requires Steps(l, t, e, after) && g <= t.generation && !Owns(t.nodes, id, g)
    ensures g <= after.generation && !Owns(after.nodes, id, g)
  {
    match e
    case Registers(other, now, connection) => RegisteringOwners(l, t, other, now, connection, after, id, g);
    case Disconnects(other, session, now) => UpdatesKeepOwners(t.nodes, other, session, WasAccepted, 0, now, id, g);
    case Touches(other, session, now) => UpdatesKeepOwners(t.nodes, other, session, WasAccepted, 0, now, id, g);
    case Records(other, session, result, channel, now) =>
      UpdatesKeepOwners(t.nodes, other, session, result, channel, now, id, g);
    case Lists(now) => ListingOwners(l, t, now, after, id, g);
  }

  lemma OwnersStayGoneAt(l: Limits, tables: seq<HostTable>, events: seq<TableEvent>, i: nat, id: string, g: nat)
    requires i < |events| && |tables| == |events| + 1 && StepsAt(l, tables, events, i)
    requires g <= tables[i].generation && !Owns(tables[i].nodes, id, g)
    ensures g <= tables[i + 1].generation && !Owns(tables[i + 1].nodes, id, g)
  {
    OwnersStayGone(l, tables[i], events[i], tables[i + 1], id, g);
  }

  lemma {:induction false} NeverOwnsAgain(l: Limits, tables: seq<HostTable>, events: seq<TableEvent>,
                                          i: nat, j: nat, id: string, g: nat)
    requires IsRun(l, tables, events) && i <= j < |tables|
    requires g <= tables[i].generation && !Owns(tables[i].nodes, id, g)
    ensures g <= tables[j].generation && !Owns(tables[j].nodes, id, g)
    decreases j
  {
    if i < j {
      NeverOwnsAgain(l, tables, events, i, j - 1, id, g);
      OwnersStayGoneAt(l, tables, events, j - 1, id, g);
    }
  }

  // A session that does not own its node at some point of a run never owns it
  // again, so from then on it changes nothing, whatever else happens.
  lemma OldGenerationIsInert(l: Limits, tables: seq<HostTable>, events: seq<TableEvent>, i: nat, j: nat, id: string, g: nat)
    requires IsRun(l, tables, events) && i <= j < |tables|
    requires g <= tables[i].generation && !Owns(tables[i].nodes, id, g)
    ensures !Owns(tables[j].nodes, id, g) && Inert(tables[j].nodes, id, g)
  {
    NeverOwnsAgain(l, tables, events, i, j, id, g);
  }

  // A session is overtaken for good once its instance has been admitted
  // again: from that registration on it is inert in every later table.
  lemma ReplacedSessionIsInert(l: Limits, tables: seq<HostTable>, events: seq<TableEvent>, m: nat, j: nat, g: nat)
    requires ValidLimits(l) && IsRun(l, tables, events) && m < j < |tables|
    requires events[m].Registers? && |Connected(tables[m].nodes) - {events[m].id}| < l.maximumConnections
    requires g <= tables[m].generation
    ensures Inert(tables[j].nodes, events[m].id, g)
  {
    assert StepsAt(l, tables, events, m);
    AdmittedSession(l, tables[m], events[m], tables[m + 1]);
    OldGenerationIsInert(l, tables, events, m + 1, j, events[m].id, g);
  }

  // A registration below the limit hands the node to a new generation.
  lemma AdmittedSession(l: Limits, t: HostTable, e: TableEvent, after: HostTable)
    requires Steps(l, t, e, after) && e.Registers? && |Connected(t.nodes) - {e.id}| < l.maximumConnections
    ensures after.generation == t.generation + 1 && Owns(after.nodes, e.id, after.generation)
  {
    AdmittedOwns(l, t, e.now - l.recentTtl, e.id, NewNode(e.now, t.generation + 1, e.connection), after);
  }

  lemma AdmittedOwns(l: Limits, t: HostTable, cutoff: int, id: string, node: Node, after: HostTable)
    requires Registration(l, t, cutoff, id, node, after) && node.connected
    requires |Connected(t.nodes) - {id}| < l.maximumConnections
    ensures id in after.nodes && after.nodes[id] == node && after.generation == node.generation
  {
    var pruned: Table :| RegistersOver(l, t, cutoff, pruned, id, node, after);
    PrunedConnections(t.nodes, cutoff, l.recentCapacity, pruned);
    RegisteredOthers(t.nodes, cutoff, l.recentCapacity, pruned, id, node, after.nodes);
  }

  // A connected node leaves the connected ones only by its own session's
  // disconnect or a new registration of its instance; nothing else, and no
  // pruning, can remove it.
  lemma ConnectedNodesStay(l: Limits, t: HostTable, e: TableEvent, after: HostTable, id: string)
    requires ValidLimits(l) && TableOk(l, t.nodes, t.generation) && Steps(l, t, e, after)
    requires id in t.nodes && t.nodes[id].connected
    requires !(e.Registers? && e.id == id)
    requires !(e.Disconnects? && e.id == id && e.session == t.nodes[id].generation)
    ensures id in after.nodes && after.nodes[id].connected && after.nodes[id].generation == t.nodes[id].generation
  {
    if e.Registers? { RegisteringKeeps(l, t, e.id, e.now, e.connection, after); }
  }
}
