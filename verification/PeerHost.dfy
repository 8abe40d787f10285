// The peer host as an object: node table, duplicate window and sink.
module PeerHost {
  import opened Common
  import opened Notes
  import opened PeerWire
  import opened PeerWindow
  import opened PeerNodes

  class Host {
    const limits: Limits
    const bounds: Bounds
    var nodes: Table
    var generation: nat
    var duplicates: map<string, int>
    var order: seq<Entry>
    // The notes written to the sink, in order.
    var sink: seq<NoteEvent>

    ghost predicate Valid()
      reads this
    {
      && ValidLimits(limits) && bounds.capacity > 0
      && TableOk(limits, nodes, generation)
      && Matched(Window(duplicates, order)) && |order| <= bounds.capacity
    }

    constructor (limits: Limits, bounds: Bounds)
      requires ValidLimits(limits) && bounds.capacity > 0
      ensures Valid() && nodes == map[] && generation == 0 && Window(duplicates, order) == EMPTY && sink == []
      ensures this.limits == limits && this.bounds == bounds
    {
      this.limits, this.bounds := limits, bounds;
      nodes, generation, duplicates, order, sink := map[], 0, map[], [], [];
      new;
      assert Connected(nodes) == {};
    }

    // Registers a session, possibly in place of an earlier one.
    method RegisterSession(id: string, now: int, connection: nat) returns (session: nat, replaced: Option<nat>, ok: bool)
      requires Valid()
      modifies this`nodes, this`generation
      ensures Valid()
      ensures ok <==> |old(Connected(nodes)) - {id}| < limits.maximumConnections
      ensures OthersKept(old(nodes), nodes, id)
      ensures ok ==> session == generation == old(generation) + 1 && id in nodes
                     && nodes[id] == NewNode(now, session, connection)
      ensures ok ==> replaced == if id in old(nodes) && old(nodes)[id].connected then old(nodes)[id].connection else None
      ensures !ok ==> generation == old(generation)
    {
      var after, next, previous, accepted := Register(limits, nodes, generation, id, now, connection);
      nodes, generation := after, next;
      session, replaced, ok := next, previous, accepted;
    }

    method DisconnectSession(id: string, session: nat, now: int)
      requires Valid()
      modifies this`nodes
      ensures Valid() && nodes == Disconnect(old(nodes), id, session, now)
    {
      UpdatesKeep(limits, nodes, generation, id, session, now);
      if id in nodes && nodes[id].generation == session {
        nodes := nodes[id := nodes[id].(connected := false, disconnectedAt := now, connection := None)];
      }
    }

    method TouchSession(id: string, session: nat, now: int)
      requires Valid()
      modifies this`nodes
      ensures Valid() && nodes == Touch(old(nodes), id, session, now)
    {
      UpdatesKeep(limits, nodes, generation, id, session, now);
      if id in nodes && nodes[id].generation == session {
        nodes := nodes[id := nodes[id].(lastSeenAt := now)];
      }
    }

    method RecordResult(id: string, session: nat, result: Result, channel: nat, now: int)
      requires Valid()
      modifies this`nodes
      ensures Valid() && nodes == Record(old(nodes), id, session, result, channel, now)
    {
      RecordKeeps(limits, nodes, generation, id, session, result, channel, now);
      if !(id in nodes && nodes[id].generation == session) { return; }
      var node := RecordNode(nodes[id], result, channel, now);
      nodes := nodes[id := node];
    }

    // Drops the head of the queue, and its identifier if it is still the one.
    method DropHead()
      requires order != []
      modifies this`duplicates, this`order
      ensures Window(duplicates, order) == PopHead(Window(old(duplicates), old(order)))
    {
      var entry := order[0];
      order := order[1..];
      if entry.id in duplicates && duplicates[entry.id] == entry.time {
        duplicates := duplicates - {entry.id};
      }
    }

    // Forgets the identifiers that are older than the cutoff.
    method PruneDuplicates(cutoff: int)
      modifies this`duplicates, this`order
      ensures Window(duplicates, order) == PruneBefore(Window(old(duplicates), old(order)), cutoff)
    {
      while |order| > 0 && order[0].time < cutoff
        invariant PruneBefore(Window(duplicates, order), cutoff) == PruneBefore(Window(old(duplicates), old(order)), cutoff)
        decreases |order|
      {
        DropHead();
      }
    }

    method TrimDuplicates()
      requires bounds.capacity > 0
      modifies this`duplicates, this`order
      ensures Window(duplicates, order) == TrimTo(Window(old(duplicates), old(order)), bounds.capacity)
    {
      while |order| > bounds.capacity
        invariant TrimTo(Window(duplicates, order), bounds.capacity)
               == TrimTo(Window(old(duplicates), old(order)), bounds.capacity)
        decreases |order|
      {
        DropHead();
      }
    }

    // Whether the identifier was seen; if not, remembers it.
    method IsDuplicate(id: string, now: int) returns (known: bool)
      requires Valid()
      modifies this`duplicates, this`order
      ensures Valid()
      ensures (Window(duplicates, order), known) == Observe(bounds, Window(old(duplicates), old(order)), id, now)
    {
      ObserveMatches(bounds, Window(duplicates, order), id, now);
      PruneDuplicates(now - bounds.recentTtl);
      if id in duplicates { return true; }
      duplicates := duplicates[id := now];
      order := order + [Entry(id, now)];
      TrimDuplicates();
      known := false;
    }

    // Judges one note and writes it to the sink if it passes.
    method AcceptNote(a: Arrival, session: nat, sinkOk: bool, later: int) returns (verdict: Verdict)
      requires Valid()
      modifies this`nodes, this`duplicates, this`order, this`sink
      ensures Valid()
      ensures (Window(duplicates, order), verdict) == Judge(bounds, Window(old(duplicates), old(order)), a)
      ensures verdict == Written ==> EventFromNote(a.note).Some? && sink == old(sink) + [EventFromNote(a.note).value]
      ensures verdict != Written ==> sink == old(sink)
      ensures var result := match verdict
                            case Rejected => WasRejected
                            case Stale => WasStale
                            case Duplicate => WasDuplicate
                            case Written => if sinkOk then WasAccepted else WasRejected;
              var identified := EventFromNote(a.note).Some? && a.note.origin == a.instance;
              nodes == Record(old(nodes), a.instance, session, result, if identified then a.note.channel else 0, later)
    {
      var event := EventFromNote(a.note);
      if event.None? || event.value.origin != a.instance {
        RecordResult(a.instance, session, WasRejected, 0, later);
        return Rejected;
      }
      var age := a.now - event.value.createdAt;
      if age > bounds.staleAfter {
        RecordResult(a.instance, session, WasStale, event.value.channel, later);
        return Stale;
      }
      if age < -bounds.staleAfter {
        RecordResult(a.instance, session, WasRejected, event.value.channel, later);
        return Rejected;
      }
      var known := IsDuplicate(event.value.origin + ['\0'] + event.value.id, a.now);
      if known {
        RecordResult(a.instance, session, WasDuplicate, event.value.channel, later);
        return Duplicate;
      }
      sink := sink + [event.value];
      RecordResult(a.instance, session, if sinkOk then WasAccepted else WasRejected, event.value.channel, later);
      verdict := Written;
    }
  }
}
