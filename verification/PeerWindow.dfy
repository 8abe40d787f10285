// The duplicate window of the peer host and at-most-once delivery.
module PeerWindow {
  import opened Common
  import opened PeerWire

  datatype Entry = Entry(id: string, time: int)

  // A map for lookup and a queue in arrival order.
  datatype Window = Window(seen: map<string, int>, order: seq<Entry>)

  datatype Bounds = Bounds(recentTtl: int, staleAfter: int, capacity: int)

  const EMPTY := Window(map[], [])

  // ------------------------------------------------------------ specification

  function PopHead(w: Window): (after: Window)
    requires w.order != []
  {
    var head := w.order[0];
    Window(if head.id in w.seen && w.seen[head.id] == head.time then w.seen - {head.id} else w.seen, w.order[1..])
  }

  function PruneBefore(w: Window, cutoff: int): (after: Window)
    decreases |w.order|
  {
    if w.order != [] && w.order[0].time < cutoff then PruneBefore(PopHead(w), cutoff) else w
  }

  function TrimTo(w: Window, capacity: int): (after: Window)
    decreases |w.order|
  {
    if w.order != [] && |w.order| > capacity then TrimTo(PopHead(w), capacity) else w
  }

  function Append(w: Window, id: string, now: int): (after: Window) {
    Window(w.seen[id := now], w.order + [Entry(id, now)])
  }

  // Whether the identifier was seen, and the window afterwards.
  function Observe(b: Bounds, w: Window, id: string, now: int): (r: (Window, bool)) {
    var pruned := PruneBefore(w, now - b.recentTtl);
    if id in pruned.seen then (pruned, true)
    else (TrimTo(Append(pruned, id, now), b.capacity), false)
  }

  // --------------------------------------------------------------- agreement

  // The map and the queue hold the same distinct identifiers with the same
  // times.
  ghost predicate Matched(w: Window) {
    && DistinctEntries(w.order)
    && (forall e | e in w.order :: e.id in w.seen && w.seen[e.id] == e.time)
    && (forall id | id in w.seen :: Entry(id, w.seen[id]) in w.order)
  }

  ghost predicate DistinctEntries(order: seq<Entry>) {
    forall i, j | 0 <= i < j < |order| :: order[i].id != order[j].id
  }

  lemma HeadIsAlone(order: seq<Entry>, e: Entry)
    requires DistinctEntries(order) && order != []
    ensures DistinctEntries(order[1..])
    ensures e in order[1..] <==> e in order && e.id != order[0].id
  {
    assert order == [order[0]] + order[1..];
    if e in order[1..] {
      var i :| 0 <= i < |order[1..]| && order[1..][i] == e;
      assert order[i + 1] == e;
    }
  }

  lemma PopHeadMatches(w: Window)
    requires Matched(w) && w.order != []
    ensures Matched(PopHead(w)) && PopHead(w).seen == w.seen - {w.order[0].id}
  {
    var after := PopHead(w);
    assert w.order[0] in w.order;
    HeadIsAlone(w.order, w.order[0]);
    forall e | e in after.order
      ensures e.id in after.seen && after.seen[e.id] == e.time
    {
      HeadIsAlone(w.order, e);
    }
    forall id | id in after.seen
      ensures Entry(id, after.seen[id]) in after.order
    {
      HeadIsAlone(w.order, Entry(id, w.seen[id]));
    }
  }

  lemma AppendMatches(w: Window, id: string, now: int)
    requires Matched(w) && id !in w.seen
    ensures Matched(Append(w, id, now))
  {
    var after := Append(w, id, now);
    assert forall e :: e in after.order <==> e in w.order || e == Entry(id, now);
    forall i, j | 0 <= i < j < |after.order|
      ensures after.order[i].id != after.order[j].id
    {
      assert w.order[i] in w.order;
    }
  }

  lemma {:induction false} PruneMatches(w: Window, cutoff: int)
    requires Matched(w)
    ensures Matched(PruneBefore(w, cutoff)) && |PruneBefore(w, cutoff).order| <= |w.order|
    decreases |w.order|
  {
    if w.order != [] && w.order[0].time < cutoff {
      PopHeadMatches(w);
      PruneMatches(PopHead(w), cutoff);
    }
  }

  lemma {:induction false} TrimMatches(w: Window, capacity: int)
    requires Matched(w) && capacity >= 0
    ensures Matched(TrimTo(w, capacity)) && |TrimTo(w, capacity).order| <= capacity
    decreases |w.order|
  {
    if w.order != [] && |w.order| > capacity {
      PopHeadMatches(w);
      TrimMatches(PopHead(w), capacity);
    }
  }

  // Every call keeps the map and the queue in agreement and the capacity.
  lemma ObserveMatches(b: Bounds, w: Window, id: string, now: int)
    requires Matched(w) && b.capacity > 0 && |w.order| <= b.capacity
    ensures Matched(Observe(b, w, id, now).0) && |Observe(b, w, id, now).0.order| <= b.capacity
  {
    var pruned := PruneBefore(w, now - b.recentTtl);
    PruneMatches(w, now - b.recentTtl);
    if id !in pruned.seen { RememberMatches(pruned, id, now, b.capacity); }
  }

  lemma RememberMatches(w: Window, id: string, now: int, capacity: int)
    requires Matched(w) && id !in w.seen && capacity > 0
    ensures Matched(TrimTo(Append(w, id, now), capacity)) && |TrimTo(Append(w, id, now), capacity).order| <= capacity
  {
    AppendMatches(w, id, now);
    TrimMatches(Append(w, id, now), capacity);
  }

  // ---------------------------------------------------------------- survival

  // `e` is in the queue with at most `behind` entries after it.
  ghost predicate Within(w: Window, e: Entry, behind: int) {
    exists i :: 0 <= i < |w.order| && w.order[i] == e && |w.order| - 1 - i <= behind
  }

  lemma PopHeadWithin(w: Window, e: Entry, behind: int)
    requires w.order != [] && w.order[0] != e && Within(w, e, behind)
    ensures Within(PopHead(w), e, behind)
  {
    var i :| 0 <= i < |w.order| && w.order[i] == e && |w.order| - 1 - i <= behind;
    assert PopHead(w).order[i - 1] == e;
  }

  lemma {:induction false} PruneWithin(w: Window, cutoff: int, e: Entry, behind: int)
    requires Within(w, e, behind) && e.time >= cutoff
    ensures Within(PruneBefore(w, cutoff), e, behind)
    decreases |w.order|
  {
    if w.order != [] && w.order[0].time < cutoff {
      PopHeadWithin(w, e, behind);
      PruneWithin(PopHead(w), cutoff, e, behind);
    }
  }

  lemma {:induction false} TrimWithin(w: Window, capacity: int, e: Entry, behind: int)
    requires Within(w, e, behind) && behind < capacity
    ensures Within(TrimTo(w, capacity), e, behind)
    decreases |w.order|
  {
    if w.order != [] && |w.order| > capacity {
      var i :| 0 <= i < |w.order| && w.order[i] == e && |w.order| - 1 - i <= behind;
      assert PopHead(w).order[i - 1] == e;
      TrimWithin(PopHead(w), capacity, e, behind);
    }
  }

  // An entry outlives a call that comes no later than its expiry and leaves
  // fewer than `capacity` entries behind it.
  lemma ObserveWithin(b: Bounds, w: Window, id: string, now: int, e: Entry, behind: int)
    requires Within(w, e, behind) && now <= e.time + b.recentTtl
    requires behind + 1 < b.capacity || Observe(b, w, id, now).1
    ensures Within(Observe(b, w, id, now).0, e, if Observe(b, w, id, now).1 then behind else behind + 1)
  {
    var pruned := PruneBefore(w, now - b.recentTtl);
    PruneWithin(w, now - b.recentTtl, e, behind);
    if id !in pruned.seen {
      var i :| 0 <= i < |pruned.order| && pruned.order[i] == e && |pruned.order| - 1 - i <= behind;
      assert Append(pruned, id, now).order[i] == e;
      TrimWithin(Append(pruned, id, now), b.capacity, e, behind + 1);
    }
  }

  lemma AppendedWithin(w: Window, id: string, now: int, capacity: int)
    requires capacity > 0
    ensures Within(TrimTo(Append(w, id, now), capacity), Entry(id, now), 0)
  {
    assert Append(w, id, now).order[|w.order|] == Entry(id, now);
    TrimWithin(Append(w, id, now), capacity, Entry(id, now), 0);
  }

  // ---------------------------------------------------------------- judgement

  // One note that arrives on an authenticated connection, and the clock.
  datatype Arrival = Arrival(instance: string, note: WireNote, now: int)

  datatype Verdict = Rejected | Stale | Duplicate | Written

  // The key under which an identifier is remembered.
  function KeyOf(origin: string, id: string): (key: string) {
    origin + ['\0'] + id
  }

  function Judge(b: Bounds, w: Window, a: Arrival): (r: (Window, Verdict)) {
    var event := EventFromNote(a.note);
    if event.None? || event.value.origin != a.instance then (w, Rejected)
    else
      var age := a.now - event.value.createdAt;
      if age > b.staleAfter then (w, Stale)
      else if age < -b.staleAfter then (w, Rejected)
      else
        var (after, known) := Observe(b, w, KeyOf(event.value.origin, event.value.id), a.now);
        (after, if known then Duplicate else Written)
  }

  // Identifiers of safe origins cannot be confused.
  lemma {:induction false} KeysDiffer(origin: string, id: string, otherOrigin: string, otherId: string)
    requires '\0' !in origin && '\0' !in otherOrigin
    ensures KeyOf(origin, id) == KeyOf(otherOrigin, otherId) <==> origin == otherOrigin && id == otherId
    decreases |origin|
  {
    var a, b := KeyOf(origin, id), KeyOf(otherOrigin, otherId);
    if a == b {
      if origin == [] || otherOrigin == [] {
        assert a[0] == b[0];
        assert origin == [] ==> a[0] == '\0';
        assert otherOrigin == [] ==> b[0] == '\0';
        assert origin == otherOrigin == [];
        assert a[1..] == id && b[1..] == otherId;
      } else {
        assert a[0] == origin[0] && b[0] == otherOrigin[0];
        assert a[1..] == KeyOf(origin[1..], id) && b[1..] == KeyOf(otherOrigin[1..], otherId);
        KeysDiffer(origin[1..], id, otherOrigin[1..], otherId);
        assert origin == [origin[0]] + origin[1..] && otherOrigin == [otherOrigin[0]] + otherOrigin[1..];
      }
    }
  }

  lemma SafeOriginsHaveNoNul(note: WireNote)
    requires EventFromNote(note).Some?
    ensures '\0' !in EventFromNote(note).value.origin
  {
  }

  function After(b: Bounds, arrivals: seq<Arrival>): (w: Window) {
    if arrivals == [] then EMPTY
    else Judge(b, After(b, arrivals[..|arrivals| - 1]), arrivals[|arrivals| - 1]).0
  }

  function VerdictAt(b: Bounds, arrivals: seq<Arrival>, i: nat): (v: Verdict)
    requires i < |arrivals|
  {
    Judge(b, After(b, arrivals[..i]), arrivals[i]).1
  }

  // How many notes the arrivals first..limit - 1 added to the window.
  function WrittenCount(b: Bounds, arrivals: seq<Arrival>, first: nat, limit: nat): (n: nat)
    requires first <= limit <= |arrivals|
    decreases limit
  {
    if first == limit then 0
    else
      WrittenCount(b, arrivals, first, limit - 1) + (if VerdictAt(b, arrivals, limit - 1) == Written then 1 else 0)
  }

  lemma AfterStep(b: Bounds, arrivals: seq<Arrival>, i: nat)
    requires i < |arrivals|
    ensures After(b, arrivals[..i + 1]) == Judge(b, After(b, arrivals[..i]), arrivals[i]).0
  {
    assert arrivals[..i + 1][..i] == arrivals[..i];
  }

  lemma {:induction false} RunsMatch(b: Bounds, arrivals: seq<Arrival>)
    requires b.capacity > 0
    ensures Matched(After(b, arrivals)) && |After(b, arrivals).order| <= b.capacity
    decreases |arrivals|
  {
    if arrivals != [] {
      var w, a := After(b, arrivals[..|arrivals| - 1]), arrivals[|arrivals| - 1];
      RunsMatch(b, arrivals[..|arrivals| - 1]);
      JudgeMatches(b, w, a);
    }
  }

  lemma JudgeMatches(b: Bounds, w: Window, a: Arrival)
    requires Matched(w) && b.capacity > 0 && |w.order| <= b.capacity
    ensures Matched(Judge(b, w, a).0) && |Judge(b, w, a).0.order| <= b.capacity
  {
    var event := EventFromNote(a.note);
    if event.Some? { ObserveMatches(b, w, KeyOf(event.value.origin, event.value.id), a.now); }
  }

  lemma WrittenIsWithin(b: Bounds, w: Window, a: Arrival)
    requires b.capacity > 0 && Judge(b, w, a).1 == Written
    ensures EventFromNote(a.note).Some?
    ensures Within(Judge(b, w, a).0, Entry(KeyOf(a.note.origin, a.note.id), a.now), 0)
  {
    AppendedWithin(PruneBefore(w, a.now - b.recentTtl), KeyOf(a.note.origin, a.note.id), a.now, b.capacity);
  }

  ghost predicate Nondecreasing(arrivals: seq<Arrival>) {
    forall i, j | 0 <= i <= j < |arrivals| :: arrivals[i].now <= arrivals[j].now
  }

  lemma JudgeWithin(b: Bounds, w: Window, a: Arrival, e: Entry, behind: int)
    requires Within(w, e, behind) && a.now <= e.time + b.recentTtl
    requires behind + 1 < b.capacity || Judge(b, w, a).1 != Written
    ensures Within(Judge(b, w, a).0, e, if Judge(b, w, a).1 == Written then behind + 1 else behind)
  {
    var event := EventFromNote(a.note);
    if event.Some? && event.value.origin == a.instance
      && -b.staleAfter <= a.now - event.value.createdAt <= b.staleAfter {
      ObserveWithin(b, w, KeyOf(event.value.origin, event.value.id), a.now, e, behind);
    }
  }

  // A written note stays in the window while the clock stays below its expiry
  // and fewer than `capacity` others follow.
  lemma {:induction false} StaysInWindow(b: Bounds, arrivals: seq<Arrival>, i: nat, j: nat)
    requires b.capacity > 0 && i < j <= |arrivals|
    requires VerdictAt(b, arrivals, i) == Written
    requires forall k | i < k < j :: arrivals[k].now <= arrivals[i].now + b.recentTtl
    requires WrittenCount(b, arrivals, i + 1, j) < b.capacity
    ensures Within(After(b, arrivals[..j]), Entry(KeyOf(arrivals[i].note.origin, arrivals[i].note.id), arrivals[i].now),
                   WrittenCount(b, arrivals, i + 1, j))
    decreases j
  {
    var e := Entry(KeyOf(arrivals[i].note.origin, arrivals[i].note.id), arrivals[i].now);
    if j == i + 1 {
      FirstWithin(b, arrivals, i);
    } else {
      var k: nat := j - 1;
      StaysInWindow(b, arrivals, i, k);
      ArrivalWithin(b, arrivals, k, e, WrittenCount(b, arrivals, i + 1, k));
    }
  }

  lemma FirstWithin(b: Bounds, arrivals: seq<Arrival>, i: nat)
    requires b.capacity > 0 && i < |arrivals| && VerdictAt(b, arrivals, i) == Written
    ensures Within(After(b, arrivals[..i + 1]),
                   Entry(KeyOf(arrivals[i].note.origin, arrivals[i].note.id), arrivals[i].now), 0)
  {
    AfterStep(b, arrivals, i);
    WrittenIsWithin(b, After(b, arrivals[..i]), arrivals[i]);
  }

  lemma ArrivalWithin(b: Bounds, arrivals: seq<Arrival>, k: nat, e: Entry, behind: int)
    requires k < |arrivals| && Within(After(b, arrivals[..k]), e, behind) && arrivals[k].now <= e.time + b.recentTtl
    requires behind + 1 < b.capacity || VerdictAt(b, arrivals, k) != Written
    ensures Within(After(b, arrivals[..k + 1]), e, if VerdictAt(b, arrivals, k) == Written then behind + 1 else behind)
  {
    AfterStep(b, arrivals, k);
    JudgeWithin(b, After(b, arrivals[..k]), arrivals[k], e, behind);
  }

  // At-most-once delivery: with clock reads that never decrease, a retention
  // of at least twice the staleness bound and fewer than `capacity` other
  // notes in between, a note with the same origin, identifier and creation
  // time as one already written is not written again.
  lemma AtMostOnce(b: Bounds, arrivals: seq<Arrival>, i: nat, j: nat)
    requires b.capacity > 0 && b.recentTtl >= 2 * b.staleAfter && Nondecreasing(arrivals)
    requires i < j < |arrivals| && WrittenCount(b, arrivals, i + 1, j) < b.capacity
    requires arrivals[i].note.origin == arrivals[j].note.origin && arrivals[i].note.id == arrivals[j].note.id
    requires arrivals[i].note.createdAt == arrivals[j].note.createdAt
    ensures !(VerdictAt(b, arrivals, i) == Written && VerdictAt(b, arrivals, j) == Written)
  {
    if VerdictAt(b, arrivals, i) == Written && arrivals[j].now - arrivals[j].note.createdAt <= b.staleAfter {
      WrittenIsTimely(b, After(b, arrivals[..i]), arrivals[i]);
      StaysInWindow(b, arrivals, i, j);
      RunsMatch(b, arrivals[..j]);
      KnownIsNotWritten(b, After(b, arrivals[..j]), arrivals[i], arrivals[j], WrittenCount(b, arrivals, i + 1, j));
    } else {
      StaleIsNotWritten(b, After(b, arrivals[..j]), arrivals[j]);
    }
  }

  lemma WrittenIsTimely(b: Bounds, w: Window, a: Arrival)
    requires Judge(b, w, a).1 == Written
    ensures -b.staleAfter <= a.now - a.note.createdAt <= b.staleAfter && EventFromNote(a.note).Some?
  {
  }

  lemma StaleIsNotWritten(b: Bounds, w: Window, a: Arrival)
    ensures a.now - a.note.createdAt > b.staleAfter ==> Judge(b, w, a).1 != Written
  {
  }

  // A note whose key is in the window under a recent time is a duplicate.
  lemma KnownIsNotWritten(b: Bounds, w: Window, first: Arrival, second: Arrival, behind: int)
    requires Matched(w) && EventFromNote(first.note).Some?
    requires Within(w, Entry(KeyOf(first.note.origin, first.note.id), first.now), behind)
    requires first.note.origin == second.note.origin && first.note.id == second.note.id
    requires second.now <= first.now + b.recentTtl
    ensures Judge(b, w, second).1 != Written
  {
    var e := Entry(KeyOf(first.note.origin, first.note.id), first.now);
    KnownAfterPruning(w, second.now - b.recentTtl, e, behind);
  }

  lemma KnownAfterPruning(w: Window, cutoff: int, e: Entry, behind: int)
    requires Matched(w) && Within(w, e, behind) && e.time >= cutoff
    ensures e.id in PruneBefore(w, cutoff).seen
  {
    PruneWithin(w, cutoff, e, behind);
    PruneMatches(w, cutoff);
    var i :| 0 <= i < |PruneBefore(w, cutoff).order| && PruneBefore(w, cutoff).order[i] == e;
  }

  // ------------------------------------------------------------- no false alarm

  lemma {:induction false} PruneForgets(w: Window, cutoff: int)
    ensures PruneBefore(w, cutoff).seen.Keys <= w.seen.Keys
    decreases |w.order|
  {
    if w.order != [] && w.order[0].time < cutoff { PruneForgets(PopHead(w), cutoff); }
  }

  lemma {:induction false} TrimForgets(w: Window, capacity: int)
    ensures TrimTo(w, capacity).seen.Keys <= w.seen.Keys
    decreases |w.order|
  {
    if w.order != [] && |w.order| > capacity { TrimForgets(PopHead(w), capacity); }
  }

  // A call adds no key but its own, and that only if it was not known.
  lemma ObserveLearns(b: Bounds, w: Window, id: string, now: int)
    ensures Observe(b, w, id, now).0.seen.Keys <= w.seen.Keys + (if Observe(b, w, id, now).1 then {} else {id})
    ensures Observe(b, w, id, now).1 ==> id in w.seen
  {
    var pruned := PruneBefore(w, now - b.recentTtl);
    PruneForgets(w, now - b.recentTtl);
    TrimForgets(Append(pruned, id, now), b.capacity);
  }

  lemma JudgeLearns(b: Bounds, w: Window, a: Arrival)
    ensures var (after, verdict) := Judge(b, w, a);
            && after.seen.Keys <= w.seen.Keys + (if verdict == Written then {KeyOf(a.note.origin, a.note.id)} else {})
            && (verdict == Duplicate ==> KeyOf(a.note.origin, a.note.id) in w.seen)
            && (verdict == Written || verdict == Duplicate ==> EventFromNote(a.note).Some?)
  {
    ObserveLearns(b, w, KeyOf(a.note.origin, a.note.id), a.now);
  }

  // The key is that of an arrival among the first `limit` that was written.
  ghost predicate WasWritten(b: Bounds, arrivals: seq<Arrival>, limit: nat, key: string)
    requires limit <= |arrivals|
  {
    exists i: nat :: i < limit && VerdictAt(b, arrivals, i) == Written
                     && KeyOf(arrivals[i].note.origin, arrivals[i].note.id) == key
  }

  lemma {:induction false} KnownWasWritten(b: Bounds, arrivals: seq<Arrival>, limit: nat, key: string)
    requires limit <= |arrivals| && key in After(b, arrivals[..limit]).seen
    ensures WasWritten(b, arrivals, limit, key)
    decreases limit
  {
    if limit > 0 {
      var last: nat := limit - 1;
      AfterStep(b, arrivals, last);
      JudgeLearns(b, After(b, arrivals[..last]), arrivals[last]);
      if key in After(b, arrivals[..last]).seen {
        KnownWasWritten(b, arrivals, last, key);
      } else {
        assert VerdictAt(b, arrivals, last) == Written;
      }
    }
  }

  // No note is taken for a duplicate without cause: the verdict means that a
  // note with the same origin and identifier was written before.
  lemma DuplicatesWereWritten(b: Bounds, arrivals: seq<Arrival>, j: nat) returns (i: nat)
    requires j < |arrivals| && VerdictAt(b, arrivals, j) == Duplicate
    ensures i < j && VerdictAt(b, arrivals, i) == Written
    ensures arrivals[i].note.origin == arrivals[j].note.origin && arrivals[i].note.id == arrivals[j].note.id
  {
    var key := KeyOf(arrivals[j].note.origin, arrivals[j].note.id);
    JudgeLearns(b, After(b, arrivals[..j]), arrivals[j]);
    KnownWasWritten(b, arrivals, j, key);
    i :| i < j && VerdictAt(b, arrivals, i) == Written && KeyOf(arrivals[i].note.origin, arrivals[i].note.id) == key;
    JudgeLearns(b, After(b, arrivals[..i]), arrivals[i]);
    SafeOriginsHaveNoNul(arrivals[i].note);
    SafeOriginsHaveNoNul(arrivals[j].note);
    KeysDiffer(arrivals[i].note.origin, arrivals[i].note.id, arrivals[j].note.origin, arrivals[j].note.id);
  }

  // ------------------------------------------------------------ exact verdicts

  // The entries of the notes written among the first n arrivals, in order.
  ghost function WrittenEntries(b: Bounds, arrivals: seq<Arrival>, n: nat): (entries: seq<Entry>)
    requires n <= |arrivals|
  {
    if n == 0 then []
    else
      var a := arrivals[n - 1];
      WrittenEntries(b, arrivals, n - 1)
      + (if VerdictAt(b, arrivals, n - 1) == Written then [Entry(KeyOf(a.note.origin, a.note.id), a.now)] else [])
  }

  ghost predicate Ends(part: seq<Entry>, whole: seq<Entry>) {
    |part| <= |whole| && forall i | 0 <= i < |part| :: part[i] == whole[|whole| - |part| + i]
  }

  lemma EndsTail(part: seq<Entry>, whole: seq<Entry>)
    requires whole != [] && Ends(part, whole[1..])
    ensures Ends(part, whole)
  {
  }

  lemma {:induction false} PruneEnds(w: Window, cutoff: int)
    ensures Ends(PruneBefore(w, cutoff).order, w.order)
    ensures PruneBefore(w, cutoff).order != [] ==> PruneBefore(w, cutoff).order[0].time >= cutoff
    decreases |w.order|
  {
    if w.order != [] && w.order[0].time < cutoff {
      PruneEnds(PopHead(w), cutoff);
      EndsTail(PruneBefore(w, cutoff).order, w.order);
    }
  }

  lemma {:induction false} TrimEnds(w: Window, capacity: int)
    ensures Ends(TrimTo(w, capacity).order, w.order)
    decreases |w.order|
  {
    if w.order != [] && |w.order| > capacity {
      TrimEnds(PopHead(w), capacity);
      EndsTail(TrimTo(w, capacity).order, w.order);
    }
  }

  lemma EndsChains(a: seq<Entry>, b: seq<Entry>, c: seq<Entry>)
    requires Ends(a, b) && Ends(b, c)
    ensures Ends(a, c)
  {
  }

  lemma EndsGrows(part: seq<Entry>, whole: seq<Entry>, e: Entry)
    requires Ends(part, whole)
    ensures Ends(part + [e], whole + [e])
  {
  }

  lemma ObserveEnds(b: Bounds, w: Window, id: string, now: int, entries: seq<Entry>)
    requires Ends(w.order, entries)
    ensures var (after, known) := Observe(b, w, id, now);
            Ends(after.order, if known then entries else entries + [Entry(id, now)])
  {
    var pruned := PruneBefore(w, now - b.recentTtl);
    PruneEnds(w, now - b.recentTtl);
    EndsChains(pruned.order, w.order, entries);
    if id !in pruned.seen {
      var grown := Append(pruned, id, now);
      EndsGrows(pruned.order, entries, Entry(id, now));
      TrimEnds(grown, b.capacity);
      EndsChains(TrimTo(grown, b.capacity).order, grown.order, entries + [Entry(id, now)]);
    }
  }

  lemma JudgeEnds(b: Bounds, w: Window, a: Arrival, entries: seq<Entry>)
    requires Ends(w.order, entries)
    ensures var (after, verdict) := Judge(b, w, a);
            Ends(after.order, if verdict == Written then entries + [Entry(KeyOf(a.note.origin, a.note.id), a.now)] else entries)
  {
    ObserveEnds(b, w, KeyOf(a.note.origin, a.note.id), a.now, entries);
  }

  // The queue always holds the latest of the written notes.
  lemma {:induction false} WindowEndsTheWritten(b: Bounds, arrivals: seq<Arrival>, n: nat)
    requires n <= |arrivals|
    ensures Ends(After(b, arrivals[..n]).order, WrittenEntries(b, arrivals, n))
    decreases n
  {
    if n > 0 {
      WindowEndsTheWritten(b, arrivals, n - 1);
      AfterStep(b, arrivals, n - 1);
      JudgeEnds(b, After(b, arrivals[..n - 1]), arrivals[n - 1], WrittenEntries(b, arrivals, n - 1));
    }
  }

  // The m-th written entry is that of an arrival with m written before it.
  lemma {:induction false} EntryOfArrival(b: Bounds, arrivals: seq<Arrival>, n: nat, m: nat) returns (i: nat)
    requires n <= |arrivals| && m < |WrittenEntries(b, arrivals, n)|
    ensures i < n && VerdictAt(b, arrivals, i) == Written
    ensures WrittenEntries(b, arrivals, n)[m] == Entry(KeyOf(arrivals[i].note.origin, arrivals[i].note.id), arrivals[i].now)
    ensures WrittenCount(b, arrivals, i + 1, n) == |WrittenEntries(b, arrivals, n)| - 1 - m
    decreases n
  {
    if m < |WrittenEntries(b, arrivals, n - 1)| {
      i := EntryOfArrival(b, arrivals, n - 1, m);
    } else {
      i := n - 1;
    }
  }

  // Some note of that key was written within the retention, and fewer than
  // `capacity` others since.
  ghost predicate Remembered(b: Bounds, arrivals: seq<Arrival>, j: nat)
    requires j < |arrivals|
  {
    exists i: nat ::
      && i < j && VerdictAt(b, arrivals, i) == Written
      && arrivals[i].note.origin == arrivals[j].note.origin && arrivals[i].note.id == arrivals[j].note.id
      && arrivals[j].now <= arrivals[i].now + b.recentTtl
      && WrittenCount(b, arrivals, i + 1, j) < b.capacity
  }

  // Valid, of the authenticated instance, and neither too old nor too new.
  predicate Timely(b: Bounds, a: Arrival) {
    && EventFromNote(a.note).Some? && a.note.origin == a.instance
    && -b.staleAfter <= a.now - a.note.createdAt <= b.staleAfter
  }

  lemma RememberedIsKnown(b: Bounds, arrivals: seq<Arrival>, j: nat)
    requires b.capacity > 0 && Nondecreasing(arrivals) && j < |arrivals| && Remembered(b, arrivals, j)
    ensures VerdictAt(b, arrivals, j) != Written
  {
    var i: nat :| i < j && VerdictAt(b, arrivals, i) == Written
      && arrivals[i].note.origin == arrivals[j].note.origin && arrivals[i].note.id == arrivals[j].note.id
      && arrivals[j].now <= arrivals[i].now + b.recentTtl
      && WrittenCount(b, arrivals, i + 1, j) < b.capacity;
    WrittenIsTimely(b, After(b, arrivals[..i]), arrivals[i]);
    StaysInWindow(b, arrivals, i, j);
    RunsMatch(b, arrivals[..j]);
    KnownIsNotWritten(b, After(b, arrivals[..j]), arrivals[i], arrivals[j], WrittenCount(b, arrivals, i + 1, j));
  }

  // An entry left by pruning is a written one, late enough or after one that
  // is.
  lemma KnownIsLate(w: Window, cutoff: int, i: nat, entries: seq<Entry>) returns (first: nat, m: nat)
    requires Ends(w.order, entries) && i < |PruneBefore(w, cutoff).order|
    ensures first <= m < |entries| && entries[m] == PruneBefore(w, cutoff).order[i] && |entries| - |w.order| <= m
    ensures entries[first].time >= cutoff
  {
    PruneEnds(w, cutoff);
    first, m := LateEntry(PruneBefore(w, cutoff).order, w.order, entries, cutoff, i);
  }

  lemma LateEntry(kept: seq<Entry>, order: seq<Entry>, entries: seq<Entry>, cutoff: int, i: nat) returns (first: nat, m: nat)
    requires Ends(kept, order) && Ends(order, entries) && i < |kept| && kept[0].time >= cutoff
    ensures first <= m < |entries| && entries[m] == kept[i] && |entries| - |order| <= m && entries[first].time >= cutoff
  {
    EndsChains(kept, order, entries);
    first, m := |entries| - |kept|, |entries| - |kept| + i;
    assert entries[|entries| - |kept| + 0] == kept[0];
  }

  lemma EntryIndex(w: Window, key: string) returns (i: nat)
    requires Matched(w) && key in w.seen
    ensures i < |w.order| && w.order[i].id == key
  {
    i :| i < |w.order| && w.order[i] == Entry(key, w.seen[key]);
  }

  // The latest written arrival of a known key, and its retention.
  lemma KnownArrival(b: Bounds, arrivals: seq<Arrival>, j: nat, key: string, cutoff: int) returns (i: nat)
    requires b.capacity > 0 && Nondecreasing(arrivals) && j <= |arrivals|
    requires key in PruneBefore(After(b, arrivals[..j]), cutoff).seen
    ensures i < j && VerdictAt(b, arrivals, i) == Written && KeyOf(arrivals[i].note.origin, arrivals[i].note.id) == key
    ensures arrivals[i].now >= cutoff && WrittenCount(b, arrivals, i + 1, j) < b.capacity
  {
    RunsMatch(b, arrivals[..j]);
    WindowEndsTheWritten(b, arrivals, j);
    PruneMatches(After(b, arrivals[..j]), cutoff);
    var at := EntryIndex(PruneBefore(After(b, arrivals[..j]), cutoff), key);
    var first, m := KnownIsLate(After(b, arrivals[..j]), cutoff, at, WrittenEntries(b, arrivals, j));
    i := EntryOfArrival(b, arrivals, j, m);
    var f := EntryOfArrival(b, arrivals, j, first);
    FewerFollowTheLater(b, arrivals, f, i, j);
  }

  lemma {:induction false} CountsSplit(b: Bounds, arrivals: seq<Arrival>, first: nat, middle: nat, limit: nat)
    requires first <= middle <= limit <= |arrivals|
    ensures WrittenCount(b, arrivals, first, limit) ==
            WrittenCount(b, arrivals, first, middle) + WrittenCount(b, arrivals, middle, limit)
    decreases limit
  {
    if middle < limit { CountsSplit(b, arrivals, first, middle, limit - 1); }
  }

  lemma FewerFollowTheLater(b: Bounds, arrivals: seq<Arrival>, f: nat, i: nat, n: nat)
    requires f < n <= |arrivals| && i < n && VerdictAt(b, arrivals, f) == Written
    requires WrittenCount(b, arrivals, i + 1, n) <= WrittenCount(b, arrivals, f + 1, n)
    ensures f <= i
  {
    if i < f { CountsSplit(b, arrivals, i + 1, f + 1, n); }
  }

  lemma DuplicateIsRemembered(b: Bounds, arrivals: seq<Arrival>, j: nat)
    requires b.capacity > 0 && Nondecreasing(arrivals) && j < |arrivals| && VerdictAt(b, arrivals, j) == Duplicate
    ensures Remembered(b, arrivals, j)
  {
    var a := arrivals[j];
    JudgeLearns(b, After(b, arrivals[..j]), a);
    var i := KnownArrival(b, arrivals, j, KeyOf(a.note.origin, a.note.id), a.now - b.recentTtl);
    JudgeLearns(b, After(b, arrivals[..i]), arrivals[i]);
    SafeOriginsHaveNoNul(arrivals[i].note);
    SafeOriginsHaveNoNul(a.note);
    KeysDiffer(arrivals[i].note.origin, arrivals[i].note.id, a.note.origin, a.note.id);
  }

  // Every verdict in full: with clock reads that never decrease, a note is
  // written if and only if it is valid, of the authenticated instance, timely,
  // and no note of its origin and identifier is remembered.
  lemma VerdictsAreExact(b: Bounds, arrivals: seq<Arrival>, j: nat)
    requires b.capacity > 0 && Nondecreasing(arrivals) && j < |arrivals|
    ensures var a, v := arrivals[j], VerdictAt(b, arrivals, j);
            var age := a.now - a.note.createdAt;
            && (v == Written <==> Timely(b, a) && !Remembered(b, arrivals, j))
            && (v == Duplicate <==> Timely(b, a) && Remembered(b, arrivals, j))
            && (v == Stale <==> EventFromNote(a.note).Some? && a.note.origin == a.instance && age > b.staleAfter)
  {
    if Remembered(b, arrivals, j) { RememberedIsKnown(b, arrivals, j); }
    if VerdictAt(b, arrivals, j) == Duplicate { DuplicateIsRemembered(b, arrivals, j); }
  }
}
