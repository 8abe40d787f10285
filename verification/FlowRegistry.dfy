// The bounded flow registry: a map of entries and a heap of the same entries
// that tracks each entry's position, refining a plain map of snapshots.
module FlowRegistry {
  import opened Common
  import opened Packets
  import opened FlowKey
  import opened FlowSnapshots
  import opened Heap

  // ------------------------------------------------------------- plain model

  type Flows = map<FlowId, Snapshot>

  function NewSnapshot(id: FlowId, key: Key, e: Event, direction: Direction): (s: Snapshot)
    requires e.wireLength >= 0
  {
    Snapshot(id, key, e.capturedAt, e.capturedAt, 1, e.wireLength,
             if direction == AToB then 1 else 0, if direction == AToB then 0 else 1, e)
  }

  function Updated(s: Snapshot, e: Event, direction: Direction): (s': Snapshot)
    requires e.wireLength >= 0
  {
    s.(packets := s.packets + 1,
       bytes := s.bytes + e.wireLength,
       packetsAToB := s.packetsAToB + (if direction == AToB then 1 else 0),
       packetsBToA := s.packetsBToA + (if direction == AToB then 0 else 1),
       firstSeen := if e.capturedAt < s.firstSeen then e.capturedAt else s.firstSeen,
       lastSeen := if e.capturedAt > s.lastSeen then e.capturedAt else s.lastSeen,
       lastEvent := if e.capturedAt >= s.lastEvent.capturedAt then e else s.lastEvent)
  }

  // The flow that is evicted first: least (LastSeen, ID).
  ghost predicate IsOldest(flows: Flows, id: FlowId) {
    id in flows && forall other | other in flows && other != id ::
      RankLess(RankOf(flows[id]), RankOf(flows[other]))
  }

  ghost predicate Keyed(flows: Flows) {
    forall id | id in flows :: flows[id].id == id
  }

  lemma OldestIsUnique(flows: Flows, a: FlowId, b: FlowId)
    requires IsOldest(flows, a) && IsOldest(flows, b)
    ensures a == b
  {
    RankTotal(RankOf(flows[a]), RankOf(flows[b]));
  }

  // In words: the flow to evict was seen least recently, and of several such
  // flows it has the smallest identifier.
  lemma OldestIsLeastRecent(flows: Flows, id: FlowId, other: FlowId)
    requires Keyed(flows) && IsOldest(flows, id) && other in flows && other != id
    ensures flows[id].lastSeen < flows[other].lastSeen
            || (flows[id].lastSeen == flows[other].lastSeen && Precedes(id, other))
  {
    TextLessPrecedes(id, other);
  }

  // Every packet of a flow is counted in exactly one direction, and late
  // capture records never move a flow outside its observed interval.
  predicate Consistent(s: Snapshot) {
    && s.packets == s.packetsAToB + s.packetsBToA && s.packets > 0
    && s.firstSeen <= s.lastEvent.capturedAt == s.lastSeen
  }

  lemma UpdateKeepsConsistent(s: Snapshot, e: Event, direction: Direction)
    requires e.wireLength >= 0 && Consistent(s)
    ensures var s' := Updated(s, e, direction);
            && Consistent(s') && s'.id == s.id && s'.key == s.key
            && s'.firstSeen <= s.firstSeen && s'.lastSeen >= s.lastSeen
            && s'.firstSeen <= e.capturedAt <= s'.lastSeen
            && s'.packets == s.packets + 1 && s'.bytes == s.bytes + e.wireLength
  {
  }

  datatype ObserveResult =
    | Rejected
    | Observed(flow: Snapshot, previousLastSeen: int, created: bool, evicted: Option<Snapshot>)

  // What Observe means on a plain map.
  ghost predicate ObserveMeans(before: Flows, capacity: nat, identify: Key -> FlowId, e: Event,
                               after: Flows, result: ObserveResult) {
    if !ValidEvent(e) || e.capturedAt == ZERO_TIME then after == before && result == Rejected
    else
      var (key, direction) := Canonicalize(e);
      var id := identify(key);
      if id in before then
        && after == before[id := Updated(before[id], e, direction)]
        && result == Observed(after[id], before[id].lastSeen, false, None)
      else
        var flow := NewSnapshot(id, key, e, direction);
        if |before| < capacity then
          after == before[id := flow] && result == Observed(flow, ZERO_TIME, true, None)
        else
          && result.Observed? && result.evicted.Some?
          && IsOldest(before, result.evicted.value.id)
          && before[result.evicted.value.id] == result.evicted.value
          && after == (before - {result.evicted.value.id})[id := flow]
          && result == Observed(flow, ZERO_TIME, true, result.evicted)
  }

  // The plain model is deterministic, stays within its capacity and keeps
  // every flow consistent.
  ghost predicate Bounded(flows: Flows, capacity: nat) {
    Keyed(flows) && |flows| <= capacity && forall id | id in flows :: Consistent(flows[id])
  }

  lemma ObserveIsDetermined(before: Flows, capacity: nat, identify: Key -> FlowId, e: Event,
                            after: Flows, result: ObserveResult, after': Flows, result': ObserveResult)
    requires ObserveMeans(before, capacity, identify, e, after, result)
    requires ObserveMeans(before, capacity, identify, e, after', result')
    ensures after == after' && result == result'
  {
    if result.Observed? && result.evicted.Some? {
      OldestIsUnique(before, result.evicted.value.id, result'.evicted.value.id);
    }
  }

  lemma InsertSize(flows: Flows, id: FlowId, s: Snapshot)
    ensures |flows[id := s]| == if id in flows then |flows| else |flows| + 1
  {
    assert flows[id := s].Keys == flows.Keys + {id};
    assert |flows[id := s]| == |flows.Keys + {id}|;
  }

  lemma RemoveSize(flows: Flows, id: FlowId)
    requires id in flows
    ensures |flows - {id}| == |flows| - 1
  {
    assert (flows - {id}).Keys == flows.Keys - {id};
    assert |flows - {id}| == |flows.Keys - {id}|;
  }

  lemma ObserveKeepsBounds(before: Flows, capacity: nat, identify: Key -> FlowId, e: Event,
                           after: Flows, result: ObserveResult)
    requires ObserveMeans(before, capacity, identify, e, after, result)
    requires Bounded(before, capacity) && capacity > 0
    ensures Bounded(after, capacity)
  {
    if result.Observed? {
      var (key, direction) := Canonicalize(e);
      var id := identify(key);
      if id in before {
        UpdateKeepsConsistent(before[id], e, direction);
        InsertSize(before, id, after[id]);
      } else if |before| < capacity {
        InsertSize(before, id, after[id]);
      } else {
        RemoveSize(before, result.evicted.value.id);
        InsertSize(before - {result.evicted.value.id}, id, after[id]);
      }
    }
  }

  // ---------------------------------------------------- map, heap and indices

  // One retained flow and its position in the heap.
  datatype Entry = Entry(snapshot: Snapshot, heapIndex: int)

  // The map of entries and the heap of their identifiers.
  datatype Book = Book(table: map<FlowId, Entry>, oldest: seq<FlowId>)

  function Contents(book: Book): (flows: Flows) {
    map id | id in book.table :: book.table[id].snapshot
  }

  // The heap lists every flow once, at the position its entry stores.
  ghost predicate Indexed(book: Book) {
    && (forall i | 0 <= i < |book.oldest| ::
          book.oldest[i] in book.table && book.table[book.oldest[i]].heapIndex == i)
    && (forall id | id in book.table ::
          && 0 <= book.table[id].heapIndex < |book.oldest|
          && book.oldest[book.table[id].heapIndex] == id)
  }

  // What the heap compares at position i.
  function RankAt(book: Book, i: nat): (rank: Rank)
    requires i < |book.oldest| && book.oldest[i] in book.table
  {
    RankOf(book.table[book.oldest[i]].snapshot)
  }

  ghost function Ranks(book: Book): (ranks: seq<Rank>)
    requires forall i | 0 <= i < |book.oldest| :: book.oldest[i] in book.table
    ensures |ranks| == |book.oldest|
    ensures forall i | 0 <= i < |book.oldest| :: ranks[i] == RankAt(book, i)
  {
    seq(|book.oldest|, i requires 0 <= i < |book.oldest| => RankAt(book, i))
  }

  ghost predicate Named(book: Book) {
    forall id | id in book.table :: book.table[id].snapshot.id == id
  }

  // The map, the heap and the stored positions describe the same flows, and
  // the heap is one.
  ghost predicate Linked(book: Book) {
    Indexed(book) && Named(book) && IsHeap(RankLess, Ranks(book), |book.oldest|)
  }

  // Only positions differ.
  ghost predicate SameFlows(a: Book, b: Book) {
    && a.table.Keys == b.table.Keys && |a.oldest| == |b.oldest|
    && forall id | id in a.table :: a.table[id].snapshot == b.table[id].snapshot
  }

  lemma SameContents(a: Book, b: Book)
    requires SameFlows(a, b)
    ensures Contents(a) == Contents(b)
    ensures Named(a) == Named(b)
  {
  }

  function SwapEntries(book: Book, i: nat, j: nat): (book': Book)
    requires i < |book.oldest| && j < |book.oldest|
    requires book.oldest[i] in book.table && book.oldest[j] in book.table
  {
    var a, b := book.oldest[i], book.oldest[j];
    Book(book.table[b := book.table[b].(heapIndex := i)][a := book.table[a].(heapIndex := j)],
         Swap(book.oldest, i, j))
  }

  lemma SwapKeeps(book: Book, i: nat, j: nat)
    requires Indexed(book) && i < |book.oldest| && j < |book.oldest| && i != j
    ensures var book' := SwapEntries(book, i, j);
            && Indexed(book') && SameFlows(book', book)
            && Ranks(book') == Swap(Ranks(book), i, j)
  {
    assert book.oldest[i] != book.oldest[j];
  }

  // Sift up: the ranks move as those of container/heap do.
  method UpEntry(less: (Rank, Rank) -> bool, book: Book, j: nat) returns (book': Book)
    requires Indexed(book) && j < |book.oldest|
    ensures Indexed(book') && SameFlows(book', book)
    ensures Ranks(book') == Up(less, Ranks(book), j)
  {
    book' := book;
    var k: nat := j;
    while k != 0 && less(RankAt(book', k), RankAt(book', Parent(k)))
      invariant k < |book'.oldest| && Indexed(book') && SameFlows(book', book)
      invariant Up(less, Ranks(book'), k) == Up(less, Ranks(book), j)
      decreases k
    {
      SwapKeeps(book', Parent(k), k);
      book' := SwapEntries(book', Parent(k), k);
      k := Parent(k);
    }
  }

  function ChildEntry(less: (Rank, Rank) -> bool, book: Book, k: nat, n: nat): (child: nat)
    requires 2 * k + 1 < n <= |book.oldest|
    requires forall i | 0 <= i < |book.oldest| :: book.oldest[i] in book.table
    ensures child == Child(less, Ranks(book), k, n)
  {
    var left := 2 * k + 1;
    if left + 1 < n && less(RankAt(book, left + 1), RankAt(book, left)) then left + 1 else left
  }

  predicate SinksEntry(less: (Rank, Rank) -> bool, book: Book, k: nat, n: nat)
    requires k < n <= |book.oldest|
    requires forall i | 0 <= i < |book.oldest| :: book.oldest[i] in book.table
    ensures SinksEntry(less, book, k, n) == Sinks(less, Ranks(book), k, n)
  {
    2 * k + 1 < n && less(RankAt(book, ChildEntry(less, book, k, n)), RankAt(book, k))
  }

  lemma SinkStep(less: (Rank, Rank) -> bool, book: Book, k: nat, n: nat)
    requires Indexed(book) && k < n <= |book.oldest| && SinksEntry(less, book, k, n)
    ensures var child := ChildEntry(less, book, k, n);
            var book' := SwapEntries(book, k, child);
            && k < child < n
            && Indexed(book') && SameFlows(book', book) && book'.oldest[n..] == book.oldest[n..]
            && Down(less, Ranks(book'), child, n) == Down(less, Ranks(book), k, n)
  {
    SwapKeeps(book, k, ChildEntry(less, book, k, n));
  }

  // Sift down within the first n entries.
  method DownEntry(less: (Rank, Rank) -> bool, book: Book, i: nat, n: nat) returns (book': Book, moved: bool)
    requires Indexed(book) && i < n <= |book.oldest|
    ensures Indexed(book') && SameFlows(book', book)
    ensures Ranks(book') == Down(less, Ranks(book), i, n)
    ensures moved == Sinks(less, Ranks(book), i, n)
    ensures book'.oldest[n..] == book.oldest[n..]
  {
    book', moved := book, SinksEntry(less, book, i, n);
    var k: nat := i;
    while SinksEntry(less, book', k, n)
      invariant k < n && Indexed(book') && SameFlows(book', book)
      invariant book'.oldest[n..] == book.oldest[n..]
      invariant Down(less, Ranks(book'), k, n) == Down(less, Ranks(book), i, n)
      decreases n - k
    {
      SinkStep(less, book', k, n);
      var child := ChildEntry(less, book', k, n);
      book', k := SwapEntries(book', k, child), child;
    }
  }

  // Drops the last entry of the heap and its flow.
  function DropLast(book: Book): (book': Book)
    requires book.oldest != []
  {
    var n := |book.oldest| - 1;
    Book(book.table - {book.oldest[n]}, book.oldest[..n])
  }

  lemma DropLastKeeps(book: Book)
    requires Indexed(book) && book.oldest != []
    ensures Indexed(DropLast(book))
    ensures Ranks(DropLast(book)) == Ranks(book)[..|book.oldest| - 1]
    ensures Contents(DropLast(book)) == Contents(book) - {book.oldest[|book.oldest| - 1]}
  {
  }

  // heap.Pop and the deletion from the map: removes the root.
  method PopEntry(less: (Rank, Rank) -> bool, book: Book) returns (book': Book)
    requires Indexed(book) && book.oldest != []
    ensures Indexed(book') && Ranks(book') == Pop(less, Ranks(book))
    ensures Contents(book') == Contents(book) - {book.oldest[0]}
  {
    var n := |book.oldest| - 1;
    book' := book;
    if n > 0 {
      SwapKeeps(book, 0, n);
      ghost var swapped := SwapEntries(book, 0, n);
      var moved;
      book', moved := DownEntry(less, SwapEntries(book, 0, n), 0, n);
      assert book'.oldest[n] == book'.oldest[n..][0] == swapped.oldest[n..][0] == book.oldest[0];
      SameContents(book', book);
    }
    DropLastKeeps(book');
    book' := DropLast(book');
  }

  // The root of the heap is the least (LastSeen, ID) flow.
  lemma RootIsOldest(book: Book)
    requires Linked(book) && book.oldest != []
    ensures IsOldest(Contents(book), book.oldest[0])
  {
    RankLessIsOrdered();
    var ranks := Ranks(book);
    forall other | other in book.table && other != book.oldest[0]
      ensures RankLess(ranks[0], RankOf(book.table[other].snapshot))
    {
      var i := book.table[other].heapIndex;
      RootComesFirst(RankLess, ranks, i);
      RankTotal(ranks[0], ranks[i]);
    }
  }

  method PopOldest(book: Book) returns (book': Book, gone: Snapshot)
    requires Linked(book) && book.oldest != []
    ensures Linked(book')
    ensures IsOldest(Contents(book), gone.id) && Contents(book)[gone.id] == gone
    ensures Contents(book') == Contents(book) - {gone.id}
  {
    gone := book.table[book.oldest[0]].snapshot;
    RootIsOldest(book);
    RanksPop(Ranks(book));
    book' := PopEntry(RankLess, book);
    NamedByContents(book, book');
  }

  lemma NamedByContents(book: Book, book': Book)
    requires Named(book)
    requires forall id | id in Contents(book') :: Contents(book')[id].id == id
    ensures Named(book')
  {
    forall id | id in book'.table
      ensures book'.table[id].snapshot.id == id
    {
      assert id in Contents(book');
    }
  }

  // heap.Push of a new flow.
  method Enter(book: Book, flow: Snapshot) returns (book': Book)
    requires Linked(book) && flow.id !in book.table
    ensures Linked(book') && Contents(book') == Contents(book)[flow.id := flow]
  {
    var n := |book.oldest|;
    var grown := Book(book.table[flow.id := Entry(flow, n)], book.oldest + [flow.id]);
    assert Indexed(grown) && Ranks(grown) == Ranks(book) + [RankOf(flow)];
    assert Contents(grown) == Contents(book)[flow.id := flow];
    RanksPush(Ranks(book), RankOf(flow));
    book' := UpEntry(RankLess, grown, n);
    SameContents(book', grown);
  }

  function Rewritten(book: Book, flow: Snapshot): (book': Book)
    requires flow.id in book.table
  {
    book.(table := book.table[flow.id := book.table[flow.id].(snapshot := flow)])
  }

  lemma RewriteKeeps(book: Book, flow: Snapshot)
    requires Indexed(book) && flow.id in book.table
    ensures Indexed(Rewritten(book, flow))
    ensures Ranks(Rewritten(book, flow)) == Ranks(book)[book.table[flow.id].heapIndex := RankOf(flow)]
    ensures Contents(Rewritten(book, flow)) == Contents(book)[flow.id := flow]
    ensures Named(book) ==> Named(Rewritten(book, flow))
  {
  }

  // heap.Fix of the entry at i.
  method FixEntry(less: (Rank, Rank) -> bool, book: Book, i: nat) returns (book': Book)
    requires Indexed(book) && i < |book.oldest|
    ensures Indexed(book') && SameFlows(book', book)
    ensures Ranks(book') == Fix(less, Ranks(book), i)
  {
    var moved;
    book', moved := DownEntry(less, book, i, |book.oldest|);
    if !moved {
      book' := UpEntry(less, book, i);
    }
  }

  // Rewrites a snapshot in place and restores the heap if its rank changed.
  method Rewrite(book: Book, flow: Snapshot) returns (book': Book)
    requires Linked(book) && flow.id in book.table
    requires flow.lastSeen >= book.table[flow.id].snapshot.lastSeen
    ensures Linked(book') && Contents(book') == Contents(book)[flow.id := flow]
  {
    var i := book.table[flow.id].heapIndex;
    var before := book.table[flow.id].snapshot;
    RewriteKeeps(book, flow);
    book' := Rewritten(book, flow);
    if flow.lastSeen > before.lastSeen {
      RanksFix(Ranks(book), i, RankOf(flow));
      book' := FixEntry(RankLess, book', i);
      SameContents(book', Rewritten(book, flow));
    } else {
      assert Ranks(book)[i := RankOf(flow)] == Ranks(book);
    }
  }

  lemma RanksPop(ranks: seq<Rank>)
    requires ranks != [] && IsHeap(RankLess, ranks, |ranks|)
    ensures |Pop(RankLess, ranks)| == |ranks| - 1
    ensures IsHeap(RankLess, Pop(RankLess, ranks), |ranks| - 1)
  {
    RankLessIsOrdered();
    PopKeeps(RankLess, ranks);
  }

  lemma RanksPush(ranks: seq<Rank>, rank: Rank)
    requires IsHeap(RankLess, ranks, |ranks|)
    ensures IsHeap(RankLess, Push(RankLess, ranks, rank), |ranks| + 1)
  {
    RankLessIsOrdered();
    PushKeeps(RankLess, ranks, rank);
  }

  lemma RanksFix(ranks: seq<Rank>, i: nat, rank: Rank)
    requires i < |ranks| && IsHeap(RankLess, ranks, |ranks|)
    ensures IsHeap(RankLess, Fix(RankLess, ranks[i := rank], i), |ranks|)
  {
    RankLessIsOrdered();
    FixKeeps(RankLess, ranks, i, rank);
  }

  // ------------------------------------------------------------ the registry

  // What Expire means on a plain map.
  ghost predicate ExpireMeans(before: Flows, cutoff: int, after: Flows, expired: seq<Snapshot>) {
    && after == (map id | id in before && before[id].lastSeen > cutoff :: before[id])
    && (forall s :: s in expired <==> s.id in before && before[s.id] == s && s.lastSeen <= cutoff)
    && (forall i, j | 0 <= i < j < |expired| :: RankLess(RankOf(expired[i]), RankOf(expired[j])))
  }

  // The flows already expired: gone from the map, at or before the cutoff, in
  // eviction order and before everything that remains.
  ghost predicate Expiring(before: Flows, cutoff: int, rest: Flows, expired: seq<Snapshot>) {
    && (forall id | id in rest :: id in before && rest[id] == before[id])
    && (forall s | s in expired :: s.id in before && before[s.id] == s && s.lastSeen <= cutoff)
    && (forall id | id in before && id !in rest :: before[id] in expired)
    && (forall s | s in expired :: s.id !in rest)
    && (forall i, j | 0 <= i < j < |expired| :: RankLess(RankOf(expired[i]), RankOf(expired[j])))
    && (forall s, id | s in expired && id in rest :: RankLess(RankOf(s), RankOf(rest[id])))
  }

  lemma ExpireOne(before: Flows, cutoff: int, rest: Flows, expired: seq<Snapshot>, gone: Snapshot)
    requires Expiring(before, cutoff, rest, expired) && Keyed(before)
    requires IsOldest(rest, gone.id) && rest[gone.id] == gone && gone.lastSeen <= cutoff
    ensures Expiring(before, cutoff, rest - {gone.id}, expired + [gone])
  {
  }

  lemma ExpireDone(before: Flows, cutoff: int, rest: Flows, expired: seq<Snapshot>)
    requires Expiring(before, cutoff, rest, expired)
    requires forall id | id in rest :: rest[id].lastSeen > cutoff
    ensures ExpireMeans(before, cutoff, rest, expired)
  {
  }

  lemma OldestBounds(flows: Flows, id: FlowId, cutoff: int)
    requires IsOldest(flows, id) && flows[id].lastSeen > cutoff
    ensures forall other | other in flows :: flows[other].lastSeen > cutoff
  {
  }

  class Registry {
    const capacity: nat
    const ttl: int
    const identify: Key -> FlowId
    var book: Book  // the map of flows and the heap of the oldest

    ghost predicate Valid()
      reads this
    {
      && Linked(book)
      && 0 < capacity && |book.table| <= capacity && 0 < ttl
    }

    // The plain map this registry stands for.
    ghost function View(): (view: Flows)
      reads this
    {
      Contents(book)
    }

    constructor (capacity: nat, ttl: int, identify: Key -> FlowId)
      requires 0 < capacity && 0 < ttl
      ensures Valid() && View() == map[]
      ensures this.capacity == capacity && this.ttl == ttl && this.identify == identify
    {
      this.capacity, this.ttl, this.identify := capacity, ttl, identify;
      book := Book(map[], []);
    }

    // Records a packet; a full registry evicts exactly its oldest flow.
    method Observe(e: Event) returns (result: ObserveResult)
      requires Valid()
      modifies this
      ensures Valid()
      ensures ObserveMeans(old(View()), capacity, identify, e, View(), result)
    {
      book, result := ObserveBook(book, capacity, identify, e);
    }

    // The most recent flows and the number retained.
    method Recent(limit: int) returns (result: seq<Snapshot>, total: nat)
      requires Valid()
      ensures DistinctFlows(View().Values) && total == |View().Values|
      ensures result == FullSort(View().Values)[..Clip(limit, total)]
    {
      result, total := RecentSnapshots(book, limit);
    }

    // Removes the flows whose last activity is at or before now minus the
    // TTL, least recent first.
    method Expire(now: int) returns (expired: seq<Snapshot>)
      requires Valid()
      modifies this
      ensures Valid()
      ensures ExpireMeans(old(View()), now - ttl, View(), expired)
    {
      book, expired := ExpireBook(book, now - ttl);
    }
  }

  // The `limit` most recent flows, most recent first, whatever order the map
  // is visited in, and the number of flows.
  method RecentSnapshots(book: Book, limit: int) returns (result: seq<Snapshot>, total: nat)
    requires Linked(book)
    ensures DistinctFlows(Contents(book).Values)
    ensures total == |Contents(book).Values|
    ensures result == FullSort(Contents(book).Values)[..Clip(limit, total)]
  {
    ValuesAreFlows(book);
    total := |book.table|;
    if limit <= 0 || total == 0 { return [], total; }
    var bound: nat := Clip(limit, total);
    var heap := Scan(Contents(book).Values, bound);
    LeadersSorted(heap, Contents(book).Values, bound);
    result := Arrange(heap);
  }

  // Visits the flows in any order, keeping the most recent ones.
  method Scan(flows: set<Snapshot>, bound: nat) returns (heap: seq<Snapshot>)
    requires DistinctFlows(flows) && bound > 0
    ensures Leading(heap, flows, bound)
  {
    var rest := flows;
    heap := [];
    while rest != {}
      invariant rest <= flows && Leading(heap, flows - rest, bound)
      decreases |rest|
    {
      var candidate :| candidate in rest;
      heap := Consider(heap, bound, candidate, flows - rest);
      assert flows - rest + {candidate} == flows - (rest - {candidate});
      rest := rest - {candidate};
    }
    assert flows - rest == flows;
  }

  function Clip(limit: int, total: nat): (count: nat)
    ensures count <= total
  {
    if limit <= 0 then 0 else if limit > total then total else limit
  }

  // One candidate against the bounded heap.
  method Consider(heap: seq<Snapshot>, bound: nat, candidate: Snapshot, ghost seen: set<Snapshot>)
    returns (heap': seq<Snapshot>)
    requires Leading(heap, seen, bound) && bound > 0
    requires candidate !in seen && DistinctFlows(seen + {candidate})
    ensures Leading(heap', seen + {candidate}, bound)
  {
    if |heap| < bound {
      LeaderJoins(heap, seen, bound, candidate);
      heap' := SiftUp(Later, heap + [candidate], |heap|);
    } else if Before(candidate, heap[0]) {
      assert DistinctFlows(seen);
      LeaderReplaces(heap, seen, bound, candidate);
      var moved;
      heap', moved := SiftDown(Later, heap[0 := candidate], 0, |heap|);
      if !moved {
        heap' := SiftUp(Later, heap[0 := candidate], 0);
      }
    } else {
      LeadersStay(heap, seen, bound, candidate);
      heap' := heap;
    }
  }

  // The values of the map are one snapshot per flow.
  lemma ValuesAreFlows(book: Book)
    requires Named(book)
    ensures DistinctFlows(Contents(book).Values)
    ensures |Contents(book).Values| == |book.table|
  {
    TableSize(book);
    ValuesSize(Contents(book));
  }

  lemma {:induction false} ValuesSize(flows: Flows)
    requires Keyed(flows)
    ensures DistinctFlows(flows.Values) && |flows.Values| == |flows|
    decreases |flows|
  {
    if flows != map[] {
      var id :| id in flows;
      var rest := flows - {id};
      RemoveSize(flows, id);
      ValuesSize(rest);
      forall s | s in flows.Values
        ensures s in rest.Values + {flows[id]}
      {
        var other :| other in flows && flows[other] == s;
        assert other != id ==> other in rest && rest[other] == s;
      }
      assert flows.Values == rest.Values + {flows[id]};
      assert flows[id] !in rest.Values;
    } else {
      assert flows.Values == {};
    }
  }

  // Updates a flow the book has.
  method ObserveKnown(book: Book, id: FlowId, e: Event, direction: Direction) returns (book': Book, flow: Snapshot)
    requires Linked(book) && id in book.table && e.wireLength >= 0
    ensures Linked(book') && |book'.table| == |book.table|
    ensures flow == Updated(Contents(book)[id], e, direction)
    ensures Contents(book') == Contents(book)[id := flow]
  {
    flow := Updated(book.table[id].snapshot, e, direction);
    book' := Rewrite(book, flow);
    KeepsSize(book, book', id);
  }

  // Adds a flow the book does not have.
  method ObserveNew(book: Book, capacity: nat, flow: Snapshot) returns (book': Book, evicted: Option<Snapshot>)
    requires Linked(book) && flow.id !in book.table && 0 < capacity && |book.table| <= capacity
    ensures Linked(book') && |book'.table| <= capacity
    ensures evicted.Some? <==> |Contents(book)| >= capacity
    ensures evicted.None? ==> Contents(book') == Contents(book)[flow.id := flow]
    ensures evicted.Some? ==>
              && IsOldest(Contents(book), evicted.value.id)
              && Contents(book)[evicted.value.id] == evicted.value
              && Contents(book') == (Contents(book) - {evicted.value.id})[flow.id := flow]
  {
    var room;
    room, evicted := MakeRoom(book, capacity);
    book' := EnterCounted(room, flow);
  }

  method EnterCounted(book: Book, flow: Snapshot) returns (book': Book)
    requires Linked(book) && flow.id !in book.table
    ensures Linked(book') && |book'.table| == |book.table| + 1
    ensures Contents(book') == Contents(book)[flow.id := flow]
  {
    book' := Enter(book, flow);
    KeepsSize(book, book', flow.id);
  }

  method ObserveBook(book: Book, capacity: nat, identify: Key -> FlowId, e: Event)
    returns (book': Book, result: ObserveResult)
    requires Linked(book) && 0 < capacity && |book.table| <= capacity
    ensures Linked(book') && |book'.table| <= capacity
    ensures ObserveMeans(Contents(book), capacity, identify, e, Contents(book'), result)
  {
    if !ValidEvent(e) || e.capturedAt == ZERO_TIME { return book, Rejected; }
    var (key, direction) := Canonicalize(e);
    var id := identify(key);
    if id in book.table {
      var previous := book.table[id].snapshot.lastSeen;
      var flow;
      book', flow := ObserveKnown(book, id, e, direction);
      result := Observed(flow, previous, false, None);
    } else {
      var flow := NewSnapshot(id, key, e, direction);
      var evicted;
      book', evicted := ObserveNew(book, capacity, flow);
      result := Observed(flow, ZERO_TIME, true, evicted);
    }
  }

  // One turn of the expiry loop.
  method ExpireStep(book: Book, cutoff: int, ghost before: Flows, expired: seq<Snapshot>)
    returns (book': Book, expired': seq<Snapshot>, done: bool)
    requires Linked(book) && book.oldest != [] && Keyed(before)
    requires Expiring(before, cutoff, Contents(book), expired)
    ensures Linked(book') && |book'.table| <= |book.table|
    ensures Expiring(before, cutoff, Contents(book'), expired')
    ensures done ==> forall id | id in Contents(book') :: Contents(book')[id].lastSeen > cutoff
    ensures !done ==> |book'.table| < |book.table|
  {
    var first := book.table[book.oldest[0]].snapshot;
    RootIsOldest(book);
    if first.lastSeen > cutoff {
      OldestBounds(Contents(book), first.id, cutoff);
      return book, expired, true;
    }
    var gone;
    book', gone := PopOldest(book);
    OldestIsUnique(Contents(book), first.id, gone.id);
    ExpireOne(before, cutoff, Contents(book), expired, gone);
    RemoveSize(Contents(book), gone.id);
    TableSize(book);
    TableSize(book');
    expired', done := expired + [gone], false;
  }

  method ExpireBook(book: Book, cutoff: int) returns (book': Book, expired: seq<Snapshot>)
    requires Linked(book)
    ensures Linked(book') && |book'.table| <= |book.table|
    ensures ExpireMeans(Contents(book), cutoff, Contents(book'), expired)
  {
    book', expired := book, [];
    var done := false;
    while !done && book'.oldest != []
      invariant Linked(book') && |book'.table| <= |book.table|
      invariant Expiring(Contents(book), cutoff, Contents(book'), expired)
      invariant done ==> forall id | id in Contents(book') :: Contents(book')[id].lastSeen > cutoff
      decreases |book'.table|, !done
    {
      book', expired, done := ExpireStep(book', cutoff, Contents(book), expired);
    }
    ExpireDone(Contents(book), cutoff, Contents(book'), expired);
  }

  // Evicts the oldest flow if the map is full.
  method MakeRoom(book: Book, capacity: nat) returns (book': Book, evicted: Option<Snapshot>)
    requires Linked(book) && 0 < capacity && |book.table| <= capacity
    ensures Linked(book') && |book'.table| < capacity && book'.table.Keys <= book.table.Keys
    ensures evicted.Some? <==> |Contents(book)| >= capacity
    ensures evicted.None? ==> book' == book
    ensures evicted.Some? ==>
              && IsOldest(Contents(book), evicted.value.id)
              && Contents(book)[evicted.value.id] == evicted.value
              && Contents(book') == Contents(book) - {evicted.value.id}
  {
    TableSize(book);
    if |book.table| >= capacity {
      assert book.oldest != [] by { assert exists id :: id in book.table; }
      var gone;
      book', gone := PopOldest(book);
      RemoveSize(Contents(book), gone.id);
      TableSize(book');
      assert book'.table.Keys == Contents(book').Keys && book.table.Keys == Contents(book).Keys;
      evicted := Some(gone);
    } else {
      book', evicted := book, None;
    }
  }

  lemma TableSize(book: Book)
    ensures |Contents(book)| == |book.table|
  {
    assert Contents(book).Keys == book.table.Keys;
    assert |Contents(book)| == |Contents(book).Keys|;
  }

  lemma KeepsSize(book: Book, book': Book, id: FlowId)
    requires Contents(book').Keys == Contents(book).Keys + {id}
    ensures |book'.table| == if id in book.table then |book.table| else |book.table| + 1
    ensures |Contents(book)| == |book.table|
  {
    TableSize(book);
    TableSize(book');
    assert |Contents(book').Keys| == |Contents(book).Keys + {id}|;
  }
}
