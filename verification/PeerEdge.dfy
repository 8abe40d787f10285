// The sending edge: a bounded queue in front of a reconnecting transport.
module PeerEdge {
  import opened Common
  import opened Packets
  import opened Notes
  import opened PeerWire
  import PeerWindow

  // What became of a note that was taken from the queue.
  datatype Outcome = WasSent | WasStale | WasFailed | WasInvalid

  datatype Taken = Taken(event: NoteEvent, outcome: Outcome)

  // `offered` are the valid events passed to Write, `taken` those that left
  // the queue, both in order.
  datatype State = State(
    capacity: nat,
    staleAfter: int,
    queue: seq<NoteEvent>,
    offered: seq<NoteEvent>,
    dropped: seq<NoteEvent>,
    taken: seq<Taken>)

  datatype Input = Offer(event: NoteEvent, cancelled: bool) | Consume(now: int, delivered: bool)

  function Initial(capacity: nat, staleAfter: int): (s: State) {
    State(capacity, staleAfter, [], [], [], [])
  }

  function OutcomeOf(event: NoteEvent, staleAfter: int, now: int, delivered: bool): (o: Outcome) {
    if event.createdAt == ZERO_TIME || now - event.createdAt > staleAfter then WasStale
    else if NoteFromEvent(event).None? then WasInvalid
    else if delivered then WasSent
    else WasFailed
  }

  function Step(s: State, input: Input): (after: State) {
    match input
    case Offer(event, cancelled) =>
      if cancelled || !Transportable(event) then s
      else if |s.queue| < s.capacity then s.(queue := s.queue + [event], offered := s.offered + [event])
      else s.(dropped := s.dropped + [event], offered := s.offered + [event])
    case Consume(now, delivered) =>
      if s.queue == [] then s
      else s.(queue := s.queue[1..],
              taken := s.taken + [Taken(s.queue[0], OutcomeOf(s.queue[0], s.staleAfter, now, delivered))])
  }

  function Run(s: State, inputs: seq<Input>): (after: State) {
    if inputs == [] then s else Step(Run(s, inputs[..|inputs| - 1]), inputs[|inputs| - 1])
  }

  function EventsOf(taken: seq<Taken>): (events: seq<NoteEvent>)
    ensures |events| == |taken|
  {
    if taken == [] then [] else EventsOf(taken[..|taken| - 1]) + [taken[|taken| - 1].event]
  }

  lemma EventsAppend(taken: seq<Taken>, t: Taken)
    ensures EventsOf(taken + [t]) == EventsOf(taken) + [t.event]
  {
    assert (taken + [t])[..|taken|] == taken;
  }

  // Every valid event passed to Write was dropped at a full queue, waits, or
  // was taken, exactly once; notes leave the queue in the order they came in;
  // and no note in the queue ever fails to convert.
  ghost predicate Accounted(s: State) {
    && |s.queue| <= s.capacity
    && multiset(s.offered) == multiset(s.dropped) + multiset(EventsOf(s.taken) + s.queue)
    && Merges(s.offered, s.dropped, EventsOf(s.taken) + s.queue)
    && AllTransportable(s.queue)
    && (forall t | t in s.taken :: t.outcome != WasInvalid)
  }

  // `whole` is an interleaving of `a` and `b` that keeps the order of each.
  ghost predicate Merges(whole: seq<NoteEvent>, a: seq<NoteEvent>, b: seq<NoteEvent>)
    decreases |whole|
  {
    if whole == [] then a == [] && b == []
    else
      var n := |whole| - 1;
      || (a != [] && a[|a| - 1] == whole[n] && Merges(whole[..n], a[..|a| - 1], b))
      || (b != [] && b[|b| - 1] == whole[n] && Merges(whole[..n], a, b[..|b| - 1]))
  }

  lemma MergesLeft(whole: seq<NoteEvent>, a: seq<NoteEvent>, b: seq<NoteEvent>, e: NoteEvent)
    requires Merges(whole, a, b) && multiset(whole) == multiset(a) + multiset(b)
    ensures Merges(whole + [e], a + [e], b) && multiset(whole + [e]) == multiset(a + [e]) + multiset(b)
  {
    assert (whole + [e])[..|whole|] == whole && (a + [e])[..|a|] == a;
  }

  lemma MergesRight(whole: seq<NoteEvent>, a: seq<NoteEvent>, b: seq<NoteEvent>, e: NoteEvent)
    requires Merges(whole, a, b) && multiset(whole) == multiset(a) + multiset(b)
    ensures Merges(whole + [e], a, b + [e]) && multiset(whole + [e]) == multiset(a) + multiset(b + [e])
  {
    assert (whole + [e])[..|whole|] == whole && (b + [e])[..|b|] == b;
  }

  ghost predicate AllTransportable(events: seq<NoteEvent>) {
    forall e | e in events :: Transportable(e)
  }

  lemma TransportableAppend(events: seq<NoteEvent>, e: NoteEvent)
    requires AllTransportable(events) && Transportable(e)
    ensures AllTransportable(events + [e])
  {
  }

  lemma OfferAccounted(s: State, event: NoteEvent, cancelled: bool)
    requires Accounted(s)
    ensures Accounted(Step(s, Offer(event, cancelled)))
  {
    if !cancelled && Transportable(event) {
      var line := EventsOf(s.taken) + s.queue;
      if |s.queue| < s.capacity {
        TransportableAppend(s.queue, event);
        MergesRight(s.offered, s.dropped, line, event);
        assert EventsOf(s.taken) + (s.queue + [event]) == line + [event];
      } else {
        MergesLeft(s.offered, s.dropped, line, event);
      }
    }
  }

  lemma ConsumeAccounted(s: State, now: int, delivered: bool)
    requires Accounted(s)
    ensures Accounted(Step(s, Consume(now, delivered)))
  {
    if s.queue != [] {
      var t := Taken(s.queue[0], OutcomeOf(s.queue[0], s.staleAfter, now, delivered));
      EventsAppend(s.taken, t);
      HeadMoves(EventsOf(s.taken), s.queue);
      HeadConverts(s.queue, s.staleAfter, now, delivered);
    }
  }

  lemma HeadMoves(front: seq<NoteEvent>, queue: seq<NoteEvent>)
    requires queue != []
    ensures front + [queue[0]] + queue[1..] == front + queue
  {
  }

  lemma HeadConverts(queue: seq<NoteEvent>, staleAfter: int, now: int, delivered: bool)
    requires AllTransportable(queue) && queue != []
    ensures OutcomeOf(queue[0], staleAfter, now, delivered) != WasInvalid && AllTransportable(queue[1..])
  {
    assert queue[0] in queue;
  }

  // Conservation over every run.
  lemma {:induction false} RunsAccount(capacity: nat, staleAfter: int, inputs: seq<Input>)
    ensures Accounted(Run(Initial(capacity, staleAfter), inputs))
    decreases |inputs|
  {
    if inputs != [] {
      RunsAccount(capacity, staleAfter, inputs[..|inputs| - 1]);
      var s := Run(Initial(capacity, staleAfter), inputs[..|inputs| - 1]);
      match inputs[|inputs| - 1]
      case Offer(event, cancelled) => OfferAccounted(s, event, cancelled);
      case Consume(now, delivered) => ConsumeAccounted(s, now, delivered);
    }
  }

  function CountOf(taken: seq<Taken>, outcome: Outcome): (n: nat) {
    if taken == [] then 0
    else CountOf(taken[..|taken| - 1], outcome) + (if taken[|taken| - 1].outcome == outcome then 1 else 0)
  }

  lemma {:induction false} OutcomesPartition(taken: seq<Taken>)
    requires forall t | t in taken :: t.outcome != WasInvalid
    ensures |taken| == CountOf(taken, WasSent) + CountOf(taken, WasStale) + CountOf(taken, WasFailed)
    decreases |taken|
  {
    if taken != [] {
      OutcomesPartition(taken[..|taken| - 1]);
      assert taken[|taken| - 1] in taken;
    }
  }

  // In numbers: each valid event is one of waiting, sent, stale, failed or
  // dropped.
  lemma EventsAreConserved(capacity: nat, staleAfter: int, inputs: seq<Input>)
    ensures var s := Run(Initial(capacity, staleAfter), inputs);
            |s.offered| == |s.queue| + |s.dropped|
                           + CountOf(s.taken, WasSent) + CountOf(s.taken, WasStale) + CountOf(s.taken, WasFailed)
  {
    RunsAccount(capacity, staleAfter, inputs);
    var s := Run(Initial(capacity, staleAfter), inputs);
    OutcomesPartition(s.taken);
    assert |multiset(s.offered)| == |s.offered|;
    assert |multiset(s.dropped) + multiset(EventsOf(s.taken) + s.queue)| == |s.dropped| + |EventsOf(s.taken) + s.queue|;
  }

  // --------------------------------------------------------- edge and host

  // An edge drops a note as stale exactly if a host with the same bound and
  // clock would.
  lemma EdgeAndHostAgreeOnStaleness(event: NoteEvent, b: PeerWindow.Bounds, w: PeerWindow.Window, now: int, delivered: bool)
    requires Transportable(event)
    ensures OutcomeOf(event, b.staleAfter, now, delivered) == WasStale <==>
            PeerWindow.Judge(b, w, PeerWindow.Arrival(event.origin, NoteFromEvent(event).value, now)).1 == PeerWindow.Stale
  {
    ConversionsAreInverse(event, NoteFromEvent(event).value);
  }

  // A note is sent exactly if it is delivered and fresh; a host that gets it
  // from its origin while it is fresh writes that very event, or wrote it
  // before.
  lemma SentNotesArrive(event: NoteEvent, staleAfter: int, now: int, delivered: bool,
                        b: PeerWindow.Bounds, w: PeerWindow.Window, later: int)
    requires Transportable(event) && -b.staleAfter <= later - event.createdAt <= b.staleAfter
    ensures OutcomeOf(event, staleAfter, now, delivered) == WasSent <==>
            delivered && now - event.createdAt <= staleAfter
    ensures var note := NoteFromEvent(event).value;
            var verdict := PeerWindow.Judge(b, w, PeerWindow.Arrival(event.origin, note, later)).1;
            EventFromNote(note) == Some(event) && (verdict == PeerWindow.Written || verdict == PeerWindow.Duplicate)
  {
    ConversionsAreInverse(event, NoteFromEvent(event).value);
  }

  // ------------------------------------------------------------- the object

  class Edge {
    const capacity: nat
    const staleAfter: int
    var queue: seq<NoteEvent>
    var sentTotal: nat
    var droppedFull: nat
    var droppedStale: nat
    ghost var view: State

    ghost predicate Valid()
      reads this
    {
      && view.capacity == capacity && view.staleAfter == staleAfter && view.queue == queue
      && sentTotal == CountOf(view.taken, WasSent) && droppedStale == CountOf(view.taken, WasStale)
      && droppedFull == |view.dropped|
    }

    constructor (capacity: nat, staleAfter: int)
      ensures Valid() && view == Initial(capacity, staleAfter)
    {
      this.capacity, this.staleAfter := capacity, staleAfter;
      queue, sentTotal, droppedFull, droppedStale := [], 0, 0, 0;
      view := Initial(capacity, staleAfter);
    }

    // Enqueues without waiting; reports whether the note was queued.
    method Write(event: NoteEvent, cancelled: bool) returns (queued: bool)
      requires Valid()
      modifies this
      ensures Valid() && view == Step(old(view), Offer(event, cancelled))
      ensures queued <==> !cancelled && Transportable(event) && |old(queue)| < capacity
    {
      view := Step(view, Offer(event, cancelled));
      if cancelled || !Transportable(event) { return false; }
      if |queue| < capacity {
        queue := queue + [event];
        return true;
      }
      droppedFull := droppedFull + 1;
      queued := false;
    }

    // Takes one note from the queue; a failed delivery ends the session.
    method ConsumeOne(now: int, delivered: bool) returns (note: Option<WireNote>)
      requires Valid() && queue != []
      modifies this
      ensures Valid() && view == Step(old(view), Consume(now, delivered))
      ensures note.Some? ==> EventFromNote(note.value) == Some(old(queue)[0])
    {
      ghost var outcome := OutcomeOf(queue[0], staleAfter, now, delivered);
      CountsAppend(view.taken, Taken(queue[0], outcome));
      view := Step(view, Consume(now, delivered));
      var stale, converted := Inspect(queue[0], staleAfter, now, delivered);
      queue := queue[1..];
      if stale {
        droppedStale := droppedStale + 1;
        return None;
      }
      note := converted;
      if note.Some? && delivered { sentTotal := sentTotal + 1; }
    }
  }

  // What the consumer does with a note: drop it as stale or convert it.
  method Inspect(event: NoteEvent, staleAfter: int, now: int, delivered: bool) returns (stale: bool, note: Option<WireNote>)
    ensures stale <==> OutcomeOf(event, staleAfter, now, delivered) == WasStale
    ensures !stale && note.Some? && delivered <==> OutcomeOf(event, staleAfter, now, delivered) == WasSent
    ensures note.Some? ==> EventFromNote(note.value) == Some(event)
    ensures Transportable(event) ==> note.Some? || stale
  {
    if event.createdAt == ZERO_TIME || now - event.createdAt > staleAfter { return true, None; }
    stale, note := false, NoteFromEvent(event);
    if note.Some? { ConversionsAreInverse(event, note.value); }
  }

  lemma CountsAppend(taken: seq<Taken>, t: Taken)
    ensures CountOf(taken + [t], WasSent) == CountOf(taken, WasSent) + (if t.outcome == WasSent then 1 else 0)
    ensures CountOf(taken + [t], WasStale) == CountOf(taken, WasStale) + (if t.outcome == WasStale then 1 else 0)
  {
    assert (taken + [t])[..|taken|] == taken;
  }

  // ----------------------------------------------------------------- backoff

  // How many sessions in a row, up to the i-th, failed to connect since the
  // last one that connected, or since the start.
  function FailuresBefore(connected: seq<bool>, i: nat): (n: nat)
    requires i < |connected|
  {
    if connected[i] || i == 0 then 0 else FailuresBefore(connected, i - 1) + 1
  }

  // The base doubled n times.
  function Doubled(base: nat, n: nat): (delay: nat) {
    if n == 0 then base else 2 * Doubled(base, n - 1)
  }

  function Capped(base: nat, limit: nat, n: nat): (delay: nat) {
    if Doubled(base, n) > limit then limit else Doubled(base, n)
  }

  lemma {:induction false} DoubledIsPower(base: nat, n: nat)
    ensures Doubled(base, n) == base * Pow2(n)
  {
    if n > 0 {
      DoubledIsPower(base, n - 1);
      assert base * (2 * Pow2(n - 1)) == 2 * (base * Pow2(n - 1));
    }
  }

  // The delay before attempt i + 1: the base doubled once for each failure in
  // a row, up to the limit.
  function DelayAt(base: nat, limit: nat, connected: seq<bool>, i: nat): (delay: nat)
    requires i < |connected|
  {
    Capped(base, limit, FailuresBefore(connected, i))
  }

  function FirstDelays(base: nat, limit: nat, connected: seq<bool>, n: nat): (delays: seq<nat>)
    requires n <= |connected|
  {
    if n == 0 then [] else FirstDelays(base, limit, connected, n - 1) + [DelayAt(base, limit, connected, n - 1)]
  }

  lemma {:induction false} FirstDelaysAt(base: nat, limit: nat, connected: seq<bool>, n: nat, i: nat)
    requires i < n <= |connected|
    ensures |FirstDelays(base, limit, connected, n)| == n
    ensures FirstDelays(base, limit, connected, n)[i] == DelayAt(base, limit, connected, i)
  {
    if n > 1 { FirstDelaysAt(base, limit, connected, n - 1, if i < n - 1 then i else 0); }
  }

  // The next delay follows from the last.
  lemma DelayFollows(base: nat, limit: nat, connected: seq<bool>, i: nat)
    requires i < |connected| && base <= limit
    ensures DelayAt(base, limit, connected, i) ==
            if connected[i] || i == 0 then base
            else
              var doubled := 2 * DelayAt(base, limit, connected, i - 1);
              if doubled > limit then limit else doubled
  {
  }

  // The delays of the reconnect loop: the n-th in a row is the base doubled n
  // times, up to the limit; a session that connected starts over.
  method Delays(base: nat, limit: nat, connected: seq<bool>) returns (delays: seq<nat>)
    requires 0 < base <= limit
    ensures |delays| == |connected|
    ensures forall i | 0 <= i < |connected| :: delays[i] == DelayAt(base, limit, connected, i)
  {
    delays := [];
    var backoff := base;
    for i := 0 to |connected|
      invariant delays == FirstDelays(base, limit, connected, i)
      invariant i == 0 ==> backoff == base
      invariant i > 0 ==> var doubled := 2 * DelayAt(base, limit, connected, i - 1);
                          backoff == if doubled > limit then limit else doubled
    {
      DelayFollows(base, limit, connected, i);
      if connected[i] { backoff := base; }
      delays := delays + [backoff];
      backoff := backoff * 2;
      if backoff > limit { backoff := limit; }
    }
    forall i | 0 <= i < |connected|
      ensures |delays| == |connected| && delays[i] == DelayAt(base, limit, connected, i)
    {
      FirstDelaysAt(base, limit, connected, |connected|, i);
    }
  }
}
