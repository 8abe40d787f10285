// What the registry's counters mean: over every history of packets and
// expiries, a retained flow tells exactly of the packets recorded for it since
// it was created.
module FlowHistory {
  import opened Common
  import opened Packets
  import opened FlowKey
  import opened FlowSnapshots
  import opened FlowRegistry

  datatype Action = Packet(e: Event) | Expiry(cutoff: int)

  ghost predicate Follows(before: Flows, action: Action, capacity: nat, identify: Key -> FlowId, after: Flows) {
    match action
    case Packet(e) => exists result :: ObserveMeans(before, capacity, identify, e, after, result)
    case Expiry(cutoff) => exists expired :: ExpireMeans(before, cutoff, after, expired)
  }

  // The flows after each action, from an empty registry on.
  ghost predicate IsHistory(tables: seq<Flows>, actions: seq<Action>, capacity: nat, identify: Key -> FlowId) {
    && |tables| == |actions| + 1 && tables[0] == map[]
    && forall i | 0 <= i < |actions| :: Follows(tables[i], actions[i], capacity, identify, tables[i + 1])
  }

  // The packet is recorded under that identifier.
  predicate Recorded(e: Event, identify: Key -> FlowId, id: FlowId) {
    ValidEvent(e) && e.capturedAt != ZERO_TIME && identify(Canonicalize(e).0) == id
  }

  // The packets recorded for a flow since it was last created.
  ghost function Log(tables: seq<Flows>, actions: seq<Action>, identify: Key -> FlowId, id: FlowId, n: nat): (log: seq<Event>)
    requires n < |tables| == |actions| + 1
    ensures forall e | e in log :: Recorded(e, identify, id)
  {
    if n == 0 || id !in tables[n] then []
    else
      var earlier := Log(tables, actions, identify, id, n - 1);
      match actions[n - 1]
      case Packet(e) => if Recorded(e, identify, id) then earlier + [e] else earlier
      case Expiry(_) => earlier
  }

  // The packet travels from the first endpoint of its key.
  predicate FromA(e: Event) {
    e.source == Canonicalize(e).0.a
  }

  function Tally(log: seq<Event>, counts: Event -> bool): (n: nat)
    ensures n <= |log|
  {
    if log == [] then 0
    else Tally(log[..|log| - 1], counts) + (if counts(log[|log| - 1]) then 1 else 0)
  }

  function TotalLength(log: seq<Event>): (total: int) {
    if log == [] then 0 else TotalLength(log[..|log| - 1]) + log[|log| - 1].wireLength
  }

  // `e` is the last to arrive of the packets captured latest.
  ghost predicate LatestOf(e: Event, log: seq<Event>) {
    exists i | 0 <= i < |log| ::
      && log[i] == e
      && (forall j | 0 <= j < i :: log[j].capturedAt <= e.capturedAt)
      && (forall j | i < j < |log| :: log[j].capturedAt < e.capturedAt)
  }

  ghost predicate EarliestTime(t: int, log: seq<Event>) {
    (exists e :: e in log && e.capturedAt == t) && forall e | e in log :: t <= e.capturedAt
  }

  // The flow's fields are those of the packets in its log.
  ghost predicate Tells(flow: Snapshot, log: seq<Event>) {
    && log != []
    && flow.key == Canonicalize(log[0]).0
    && flow.packets == |log| && flow.bytes == TotalLength(log)
    && flow.packetsAToB == Tally(log, FromA)
    && flow.packetsBToA == |log| - Tally(log, FromA)
    && EarliestTime(flow.firstSeen, log)
    && LatestOf(flow.lastEvent, log) && flow.lastSeen == flow.lastEvent.capturedAt
  }

  lemma TallyGrows(log: seq<Event>, e: Event, counts: Event -> bool)
    ensures Tally(log + [e], counts) == Tally(log, counts) + if counts(e) then 1 else 0
    ensures TotalLength(log + [e]) == TotalLength(log) + e.wireLength
  {
    assert (log + [e])[..|log|] == log;
  }

  lemma DirectionIsFromA(e: Event)
    ensures Canonicalize(e).1 == AToB <==> FromA(e)
  {
  }

  lemma FirstTells(id: FlowId, e: Event)
    requires ValidEvent(e)
    ensures var (key, direction) := Canonicalize(e);
            Tells(NewSnapshot(id, key, e, direction), [e])
  {
    DirectionIsFromA(e);
    TallyGrows([], e, FromA);
    assert [] + [e] == [e];
    assert [e][0] == e;
  }

  lemma EarliestGrows(t: int, log: seq<Event>, e: Event)
    requires EarliestTime(t, log)
    ensures EarliestTime(if e.capturedAt < t then e.capturedAt else t, log + [e])
  {
    var first :| first in log && first.capturedAt == t;
    assert first in log + [e] && e in log + [e];
  }

  lemma LatestGrows(last: Event, log: seq<Event>, e: Event)
    requires LatestOf(last, log)
    ensures LatestOf(if e.capturedAt >= last.capturedAt then e else last, log + [e])
  {
    var i :| 0 <= i < |log| && log[i] == last
      && (forall j | 0 <= j < i :: log[j].capturedAt <= last.capturedAt)
      && (forall j | i < j < |log| :: log[j].capturedAt < last.capturedAt);
    var grown := log + [e];
    assert grown[i] == last && grown[|log|] == e;
  }

  lemma UpdateTells(flow: Snapshot, log: seq<Event>, e: Event)
    requires Tells(flow, log) && ValidEvent(e)
    ensures Tells(Updated(flow, e, Canonicalize(e).1), log + [e])
  {
    DirectionIsFromA(e);
    TallyGrows(log, e, FromA);
    EarliestGrows(flow.firstSeen, log, e);
    LatestGrows(flow.lastEvent, log, e);
  }

  // One action: the flow keeps its log, or its log grows by the packet.
  lemma ActionTells(before: Flows, action: Action, capacity: nat, identify: Key -> FlowId, after: Flows,
                    id: FlowId, log: seq<Event>)
    requires Follows(before, action, capacity, identify, after) && id in after
    requires if id in before then Tells(before[id], log) else log == []
    ensures var recorded := action.Packet? && Recorded(action.e, identify, id);
            Tells(after[id], if recorded then log + [action.e] else log)
  {
    match action
    case Packet(e) =>
      var result :| ObserveMeans(before, capacity, identify, e, after, result);
      if Recorded(e, identify, id) {
        if id in before { UpdateTells(before[id], log, e); } else { FirstTells(id, e); assert [] + [e] == [e]; }
      }
    case Expiry(cutoff) =>
  }

  // In every history, whatever was evicted or expired, each retained flow
  // counts its packets and bytes in total and by direction, its times are the
  // least and the greatest capture time, and its last event is the last to
  // arrive of the latest.
  lemma {:induction false} FlowsTellTheirPackets(tables: seq<Flows>, actions: seq<Action>, capacity: nat,
                                                 identify: Key -> FlowId, id: FlowId, n: nat)
    requires IsHistory(tables, actions, capacity, identify) && n < |tables| && id in tables[n]
    ensures Tells(tables[n][id], Log(tables, actions, identify, id, n))
    decreases n
  {
    if n > 0 {
      var m: nat := n - 1;
      if id in tables[m] { FlowsTellTheirPackets(tables, actions, capacity, identify, id, m); }
      assert Follows(tables[m], actions[m], capacity, identify, tables[m + 1]);
      ActionTells(tables[m], actions[m], capacity, identify, tables[n], id, Log(tables, actions, identify, id, m));
    }
  }

  lemma {:induction false} SameTally(log: seq<Event>, p: Event -> bool, q: Event -> bool)
    requires forall e | e in log :: p(e) == q(e)
    ensures Tally(log, p) == Tally(log, q)
    decreases |log|
  {
    if log != [] {
      assert log[|log| - 1] in log;
      SameTally(log[..|log| - 1], p, q);
    }
  }

  // If the identifier stands for one conversation, every packet of the log has
  // the flow's key, so the directions are those from its first endpoint and
  // from the other.
  lemma DirectionsAreTheEndpoints(tables: seq<Flows>, actions: seq<Action>, capacity: nat,
                                  identify: Key -> FlowId, id: FlowId, n: nat)
    requires IsHistory(tables, actions, capacity, identify) && n < |tables| && id in tables[n]
    requires var log := Log(tables, actions, identify, id, n);
             forall e, f | e in log && f in log :: Canonicalize(e).0 == Canonicalize(f).0
    ensures var flow, log := tables[n][id], Log(tables, actions, identify, id, n);
            && (forall e | e in log :: Canonicalize(e).0 == flow.key)
            && flow.packetsAToB == Tally(log, (e: Event) => e.source == flow.key.a)
            && flow.packetsBToA == Tally(log, (e: Event) => e.source != flow.key.a)
  {
    FlowsTellTheirPackets(tables, actions, capacity, identify, id, n);
    var flow, log := tables[n][id], Log(tables, actions, identify, id, n);
    assert log[0] in log;
    SameTally(log, FromA, (e: Event) => e.source == flow.key.a);
    Complement(log, (e: Event) => e.source == flow.key.a, (e: Event) => e.source != flow.key.a);
  }

  lemma {:induction false} Complement(log: seq<Event>, p: Event -> bool, q: Event -> bool)
    requires forall e | e in log :: p(e) != q(e)
    ensures Tally(log, p) + Tally(log, q) == |log|
    decreases |log|
  {
    if log != [] {
      assert log[|log| - 1] in log;
      Complement(log[..|log| - 1], p, q);
    }
  }
}
