// Snapshots of observed flows, the two orders the registry uses and the
// reference meaning of "most recent first".
module FlowSnapshots {
  import opened Common
  import opened Packets
  import opened FlowKey
  import opened Heap

  datatype Snapshot = Snapshot(
    id: FlowId,
    key: Key,
    firstSeen: int,
    lastSeen: int,
    packets: nat,
    bytes: nat,
    packetsAToB: nat,
    packetsBToA: nat,
    lastEvent: Event)

  // Lexicographic order of identifiers.
  predicate TextLess(a: string, b: string)
    decreases |a|
  {
    b != [] && (a == [] || a[0] < b[0] || (a[0] == b[0] && TextLess(a[1..], b[1..])))
  }

  lemma {:induction false} TextTotal(a: string, b: string)
    ensures a == b || TextLess(a, b) || TextLess(b, a)
    ensures !(TextLess(a, b) && TextLess(b, a))
    ensures TextLess(a, b) ==> a != b
    decreases |a|
  {
    if a != [] && b != [] {
      TextTotal(a[1..], b[1..]);
      assert a == [a[0]] + a[1..] && b == [b[0]] + b[1..];
    }
  }

  lemma {:induction false} TextTransitive(a: string, b: string, c: string)
    requires TextLess(a, b) && TextLess(b, c)
    ensures TextLess(a, c)
    decreases |a|
  {
    if a != [] && a[0] == b[0] && b[0] == c[0] {
      TextTransitive(a[1..], b[1..], c[1..]);
    }
  }

  // The texts agree before i, where one ends or has the smaller character.
  ghost predicate PrecedesAt(a: string, b: string, i: nat) {
    && i <= |a| && i < |b| && (forall j | 0 <= j < i :: a[j] == b[j])
    && (i < |a| ==> a[i] < b[i])
  }

  ghost predicate Precedes(a: string, b: string) {
    exists i: nat :: PrecedesAt(a, b, i)
  }

  lemma {:induction false} TextLessPrecedes(a: string, b: string)
    ensures TextLess(a, b) <==> Precedes(a, b)
    decreases |a|
  {
    if a != [] && b != [] && a[0] == b[0] {
      TextLessPrecedes(a[1..], b[1..]);
      if i: nat :| PrecedesAt(a[1..], b[1..], i) {
        assert PrecedesAt(a, b, i + 1);
      }
      if i: nat :| PrecedesAt(a, b, i) {
        assert PrecedesAt(a[1..], b[1..], i - 1);
      }
    } else if TextLess(a, b) {
      assert PrecedesAt(a, b, 0);
    }
  }

  // The eviction order: least recently seen first, then identifier.
  datatype Rank = Rank(lastSeen: int, id: FlowId)

  function RankOf(s: Snapshot): (rank: Rank) {
    Rank(s.lastSeen, s.id)
  }

  predicate RankLess(a: Rank, b: Rank) {
    if a.lastSeen == b.lastSeen then TextLess(a.id, b.id) else a.lastSeen < b.lastSeen
  }

  // The presentation order: most recently seen first, then identifier.
  predicate Before(a: Snapshot, b: Snapshot) {
    if a.lastSeen == b.lastSeen then TextLess(a.id, b.id) else a.lastSeen > b.lastSeen
  }

  // The bounded heap keeps the last one in presentation order at its root.
  predicate Later(a: Snapshot, b: Snapshot) {
    Before(b, a)
  }

  lemma RankLessIsOrdered()
    ensures Ordered(RankLess)
  {
    forall a: Rank, b: Rank ensures RankLess(a, b) ==> !RankLess(b, a) {
      TextTotal(a.id, b.id);
    }
    forall a: Rank, b: Rank, c: Rank | !RankLess(a, b) && !RankLess(b, c) ensures !RankLess(a, c) {
      TextNotLess(a.id, b.id, c.id);
    }
  }

  lemma TextNotLess(a: string, b: string, c: string)
    ensures !TextLess(a, b) && !TextLess(b, c) ==> !TextLess(a, c)
  {
    TextTotal(a, b);
    TextTotal(b, c);
    TextTotal(a, c);
    if TextLess(b, a) && TextLess(c, b) { TextTransitive(c, b, a); }
  }

  lemma LaterIsOrdered()
    ensures Ordered(Later)
  {
    forall a: Snapshot, b: Snapshot ensures Later(a, b) ==> !Later(b, a) {
      TextTotal(a.id, b.id);
    }
    forall a: Snapshot, b: Snapshot, c: Snapshot | !Later(a, b) && !Later(b, c) ensures !Later(a, c) {
      TextNotLess(c.id, b.id, a.id);
    }
  }

  // Snapshots of different flows are strictly ordered.
  lemma BeforeIsStrict(a: Snapshot, b: Snapshot)
    ensures a.id != b.id ==> Before(a, b) || Before(b, a)
    ensures !(Before(a, b) && Before(b, a))
    ensures !Before(a, a)
  {
    TextTotal(a.id, b.id);
    TextTotal(a.id, a.id);
  }

  lemma BeforeTransitive(a: Snapshot, b: Snapshot, c: Snapshot)
    requires Before(a, b) && Before(b, c)
    ensures Before(a, c)
  {
    if a.lastSeen == b.lastSeen == c.lastSeen { TextTransitive(a.id, b.id, c.id); }
  }

  lemma RankTotal(a: Rank, b: Rank)
    ensures a == b || RankLess(a, b) || RankLess(b, a)
    ensures !(RankLess(a, b) && RankLess(b, a)) && !RankLess(a, a)
  {
    TextTotal(a.id, b.id);
    TextTotal(a.id, a.id);
  }

  // -------------------------------------------------------- the full sorting

  ghost predicate DistinctFlows(flows: set<Snapshot>) {
    forall a, b | a in flows && b in flows && a.id == b.id :: a == b
  }

  ghost predicate IsFirst(flows: set<Snapshot>, first: Snapshot) {
    first in flows && forall other | other in flows && other != first :: Before(first, other)
  }

  lemma {:induction false} FirstExists(flows: set<Snapshot>) returns (first: Snapshot)
    requires flows != {} && DistinctFlows(flows)
    ensures IsFirst(flows, first)
    decreases |flows|
  {
    var some :| some in flows;
    var rest := flows - {some};
    if rest == {} {
      assert flows == {some};
      first := some;
    } else {
      var lead := FirstExists(rest);
      BeforeIsStrict(some, lead);
      first := if Before(some, lead) then some else lead;
      forall other | other in flows && other != first
        ensures Before(first, other)
      {
        if first == some && other != lead { BeforeTransitive(some, lead, other); }
      }
    }
  }

  // All flows, most recent first: the reference for every listing.
  ghost function FullSort(flows: set<Snapshot>): (sorted: seq<Snapshot>)
    requires DistinctFlows(flows)
    ensures |sorted| == |flows|
    decreases |flows|
  {
    if flows == {} then []
    else
      assert exists first :: IsFirst(flows, first) by { var first := FirstExists(flows); }
      var first :| IsFirst(flows, first);
      [first] + FullSort(flows - {first})
  }

  ghost predicate Ascends(s: seq<Snapshot>) {
    forall i, j | 0 <= i < j < |s| :: Before(s[i], s[j])
  }

  // The head of an ascending list is before everything after it.
  lemma HeadLeads(s: seq<Snapshot>)
    requires Ascends(s) && s != []
    ensures Ascends(s[1..])
    ensures forall x | x in s[1..] :: Before(s[0], x) && x != s[0]
    ensures forall x :: x in s <==> x == s[0] || x in s[1..]
  {
    BeforeIsStrict(s[0], s[0]);
    forall x | x in s[1..]
      ensures Before(s[0], x)
    {
      var i :| 0 <= i < |s[1..]| && s[1..][i] == x;
      assert s[i + 1] == x;
    }
    assert s == [s[0]] + s[1..];
  }

  lemma Prepended(first: Snapshot, rest: seq<Snapshot>)
    requires Ascends(rest) && forall x | x in rest :: Before(first, x)
    ensures Ascends([first] + rest)
  {
    var s := [first] + rest;
    forall i, j | 0 <= i < j < |s|
      ensures Before(s[i], s[j])
    {
      assert s[j] == rest[j - 1];
      assert i > 0 ==> s[i] == rest[i - 1];
    }
  }

  // FullSort is in order and lists exactly the given flows.
  lemma {:induction false} FullSortSorts(flows: set<Snapshot>)
    requires DistinctFlows(flows)
    ensures Ascends(FullSort(flows))
    ensures forall x :: x in FullSort(flows) <==> x in flows
    decreases |flows|
  {
    if flows != {} {
      var first := FullSort(flows)[0];
      var rest := FullSort(flows - {first});
      assert IsFirst(flows, first) && FullSort(flows) == [first] + rest;
      FullSortSorts(flows - {first});
      Prepended(first, rest);
    }
  }

  // In words: the later seen comes first, and of two seen last at the same
  // time the one with the smaller identifier.
  lemma FullSortIsByRecency(flows: set<Snapshot>, i: nat, j: nat)
    requires DistinctFlows(flows) && i < j < |flows|
    ensures var a, b := FullSort(flows)[i], FullSort(flows)[j];
            a.lastSeen > b.lastSeen || (a.lastSeen == b.lastSeen && Precedes(a.id, b.id))
  {
    FullSortSorts(flows);
    TextLessPrecedes(FullSort(flows)[i].id, FullSort(flows)[j].id);
  }

  // An ascending list of flows that every other flow comes after is the
  // beginning of the full sort.
  lemma {:induction false} LeadersAreThePrefix(flows: set<Snapshot>, leaders: seq<Snapshot>)
    requires DistinctFlows(flows) && Ascends(leaders)
    requires forall x | x in leaders :: x in flows
    requires forall x, y | x in leaders && y in flows && y !in leaders :: Before(x, y)
    ensures |leaders| <= |flows|
    ensures leaders == FullSort(flows)[..|leaders|]
    decreases |leaders|
  {
    if leaders != [] {
      HeadLeads(leaders);
      var lead, rest := leaders[0], leaders[1..];
      assert lead in flows;
      var sorted := FullSort(flows);
      assert IsFirst(flows, sorted[0]) && sorted[1..] == FullSort(flows - {sorted[0]});
      LeadIsFirst(flows, leaders, sorted[0]);
      LeadersAreThePrefix(flows - {lead}, rest);
      assert leaders == [lead] + rest;
      assert sorted == [lead] + sorted[1..];
    }
  }

  lemma LeadIsFirst(flows: set<Snapshot>, leaders: seq<Snapshot>, first: Snapshot)
    requires Ascends(leaders) && leaders != []
    requires forall x, y | x in leaders && y in flows && y !in leaders :: Before(x, y)
    requires IsFirst(flows, first) && leaders[0] in flows
    ensures leaders[0] == first
  {
    HeadLeads(leaders);
    BeforeIsStrict(leaders[0], first);
    assert leaders[0] in leaders;
  }

  // ------------------------------------------------------ sorting and top-k

  // The library sort: any arrangement by Before, here by insertion.
  function Insert(x: Snapshot, s: seq<Snapshot>): (s': seq<Snapshot>) {
    if s == [] || Before(x, s[0]) then [x] + s else [s[0]] + Insert(x, s[1..])
  }

  function Arrange(s: seq<Snapshot>): (s': seq<Snapshot>) {
    if s == [] then [] else Insert(s[0], Arrange(s[1..]))
  }

  lemma {:induction false} InsertKeeps(x: Snapshot, s: seq<Snapshot>)
    requires Ascends(s) && forall y | y in s :: y.id != x.id
    ensures Ascends(Insert(x, s))
    ensures multiset(Insert(x, s)) == multiset(s) + multiset{x}
    decreases |s|
  {
    if s == [] {
    } else if Before(x, s[0]) {
      HeadLeads(s);
      forall y | y in s
        ensures Before(x, y)
      {
        if y != s[0] { BeforeTransitive(x, s[0], y); }
      }
      Prepended(x, s);
    } else {
      HeadLeads(s);
      BeforeIsStrict(x, s[0]);
      InsertKeeps(x, s[1..]);
      var rest := Insert(x, s[1..]);
      assert s == [s[0]] + s[1..];
      forall y | y in rest
        ensures Before(s[0], y)
      {
        assert y in multiset(rest);
      }
      Prepended(s[0], rest);
    }
  }

  // The elements of s belong to pairwise different flows.
  ghost predicate Unrepeated(s: seq<Snapshot>) {
    forall i, j | 0 <= i < j < |s| :: s[i].id != s[j].id
  }

  lemma HeadIsAlone(s: seq<Snapshot>, arranged: seq<Snapshot>)
    requires Unrepeated(s) && s != [] && multiset(arranged) == multiset(s[1..])
    ensures forall y | y in arranged :: y.id != s[0].id
  {
    forall y | y in arranged
      ensures y.id != s[0].id
    {
      assert y in multiset(s[1..]);
      assert y in s[1..];
    }
  }

  lemma {:induction false} ArrangeSorts(s: seq<Snapshot>)
    requires Unrepeated(s)
    ensures Ascends(Arrange(s)) && multiset(Arrange(s)) == multiset(s)
    decreases |s|
  {
    if s != [] {
      ArrangeSorts(s[1..]);
      HeadIsAlone(s, Arrange(s[1..]));
      InsertKeeps(s[0], Arrange(s[1..]));
      assert s == [s[0]] + s[1..];
    }
  }

  // `heap` holds the `limit` most recent of the flows seen so far, the least
  // recent of them at its root.
  ghost predicate Leading(heap: seq<Snapshot>, seen: set<Snapshot>, limit: nat) {
    && IsHeap(Later, heap, |heap|)
    && (forall x | x in heap :: x in seen && multiset(heap)[x] == 1)
    && (|seen| <= limit ==> forall y | y in seen :: y in heap)
    && |heap| == (if |seen| <= limit then |seen| else limit)
    && (forall x, y | x in heap && y in seen && y !in heap :: Before(x, y))
  }

  lemma Members(s: seq<Snapshot>)
    ensures forall x :: x in s <==> x in multiset(s)
  {
  }

  lemma LeaderJoins(heap: seq<Snapshot>, seen: set<Snapshot>, limit: nat, c: Snapshot)
    requires Leading(heap, seen, limit) && c !in seen && |heap| < limit
    ensures Leading(Push(Later, heap, c), seen + {c}, limit)
  {
    LaterIsOrdered();
    PushKeeps(Later, heap, c);
    Members(heap);
    Members(Push(Later, heap, c));
  }

  lemma RootIsLast(heap: seq<Snapshot>, x: Snapshot)
    requires heap != [] && IsHeap(Later, heap, |heap|) && x in heap
    ensures !Before(heap[0], x)
  {
    LaterIsOrdered();
    var i :| 0 <= i < |heap| && heap[i] == x;
    RootComesFirst(Later, heap, i);
  }

  lemma LeaderReplaces(heap: seq<Snapshot>, seen: set<Snapshot>, limit: nat, c: Snapshot)
    requires Leading(heap, seen, limit) && c !in seen && |heap| == limit > 0
    requires DistinctFlows(seen) && Before(c, heap[0])
    ensures Leading(Fix(Later, heap[0 := c], 0), seen + {c}, limit)
  {
    var root := heap[0];
    var heap' := Fix(Later, heap[0 := c], 0);
    LaterIsOrdered();
    FixKeeps(Later, heap, 0, c);
    Members(heap);
    Members(heap');
    assert multiset(heap') == multiset(heap) - multiset{root} + multiset{c};
    forall x, y | x in heap' && y in seen + {c} && y !in heap'
      ensures Before(x, y)
    {
      if x != c { RootIsLast(heap, x); BeforeIsStrict(x, root); }
      if x == c && y != root { BeforeTransitive(c, root, y); }
    }
  }

  lemma LeadersStay(heap: seq<Snapshot>, seen: set<Snapshot>, limit: nat, c: Snapshot)
    requires Leading(heap, seen, limit) && c !in seen && |heap| == limit > 0
    requires DistinctFlows(seen + {c}) && !Before(c, heap[0])
    ensures Leading(heap, seen + {c}, limit)
  {
    var root := heap[0];
    BeforeIsStrict(c, root);
    forall x | x in heap
      ensures Before(x, c)
    {
      RootIsLast(heap, x);
      BeforeIsStrict(x, root);
      if x != root { BeforeTransitive(x, root, c); }
    }
  }

  // Sorting the leaders gives the beginning of the full sort.
  lemma LeadersSorted(heap: seq<Snapshot>, flows: set<Snapshot>, limit: nat)
    requires Leading(heap, flows, limit) && DistinctFlows(flows)
    ensures Arrange(heap) == FullSort(flows)[..|heap|]
    ensures |Arrange(heap)| == |heap|
  {
    Members(heap);
    forall i, j | 0 <= i < j < |heap|
      ensures heap[i].id != heap[j].id
    {
      TwiceCounted(heap, i, j);
    }
    ArrangeSorts(heap);
    Members(Arrange(heap));
    assert |Arrange(heap)| == |multiset(Arrange(heap))| == |multiset(heap)|;
    LeadersAreThePrefix(flows, Arrange(heap));
  }

  lemma TwiceCounted(s: seq<Snapshot>, i: nat, j: nat)
    requires i < j < |s|
    ensures s[i] == s[j] ==> multiset(s)[s[i]] >= 2
  {
    assert s == s[..i] + [s[i]] + s[i + 1..j] + [s[j]] + s[j + 1..];
  }
}
