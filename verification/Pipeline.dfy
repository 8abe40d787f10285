// The packet pipeline: a capture loop, a packet stage and a note stage joined
// by two bounded queues, under cancellation at any moment.
module Pipeline {
  import opened Common

  // ------------------------------------------------------------------ states

  // What finally became of a captured packet.
  datatype Fate =
    | PacketQueueFull | PacketShutdown
    | InvalidPacket | EvaluationError | NotPlayed | ConversionError
    | NoteQueueFull | NoteShutdown
    | Sunk(ok: bool)

  datatype Capture = Capturing | Holding(i: nat) | Returned

  datatype PacketStage = AwaitPacket | Working(i: nat) | Offering(i: nat) | DiscardPackets | PacketsDone

  datatype NoteStage = AwaitNote | Writing(i: nat) | DiscardNotes | NotesDone

  // Packets are numbered in capture order, and a note bears the number of its
  // packet. `sunk` lists the notes handed to the sink.
  datatype State = State(
    packetCapacity: nat,
    noteCapacity: nat,
    cancelled: bool,
    next: nat,
    capture: Capture,
    packets: PacketStage,
    notes: NoteStage,
    packetQueue: seq<nat>,
    packetsClosed: bool,
    noteQueue: seq<nat>,
    notesClosed: bool,
    returned: bool,
    fates: map<nat, Fate>,
    sunk: seq<nat>)

  datatype Event =
    | Cancel
    | NextPacket | NextFails
    | OfferPacket | DropPacket
    | ClosePackets
    | TakePacket | StopPackets | StartDiscardPackets | DiscardPacket
    | Finish(fate: Fate) | Mapped
    | OfferNote | DropNote
    | TakeNote | Wrote(ok: bool) | StopNotes | StartDiscardNotes | DiscardNote
    | Return

  predicate EarlyFate(f: Fate) {
    f.InvalidPacket? || f.EvaluationError? || f.NotPlayed? || f.ConversionError?
  }

  function Initial(packetCapacity: nat, noteCapacity: nat): (s: State) {
    State(packetCapacity, noteCapacity, false, 0, Capturing, AwaitPacket, AwaitNote, [], false, [], false, false, map[], [])
  }

  // ------------------------------------------------------------------- steps

  function CaptureStep(s: State, e: Event): (after: State) {
    match e
    case NextPacket => if s.capture.Capturing? then s.(capture := Holding(s.next), next := s.next + 1) else s
    case NextFails => if s.capture.Capturing? then s.(capture := Returned) else s
    case OfferPacket =>
      if s.capture.Holding? && |s.packetQueue| < s.packetCapacity
      then s.(capture := Capturing, packetQueue := s.packetQueue + [s.capture.i]) else s
    case DropPacket =>
      if !s.capture.Holding? then s
      else if s.cancelled then s.(capture := Returned, fates := s.fates[s.capture.i := PacketShutdown])
      else if |s.packetQueue| >= s.packetCapacity
      then s.(capture := Capturing, fates := s.fates[s.capture.i := PacketQueueFull]) else s
    case ClosePackets => if s.capture.Returned? && !s.packetsClosed then s.(packetsClosed := true) else s
    case _ => s
  }

  function PacketStep(s: State, e: Event): (after: State) {
    match e
    case TakePacket =>
      if s.packets.AwaitPacket? && s.packetQueue != []
      then s.(packets := Working(s.packetQueue[0]), packetQueue := s.packetQueue[1..]) else s
    case StopPackets =>
      // The stage ends on a closed, drained queue and then closes the notes.
      if (s.packets.AwaitPacket? || s.packets.DiscardPackets?) && s.packetQueue == [] && s.packetsClosed
      then s.(packets := PacketsDone, notesClosed := true) else s
    case StartDiscardPackets => if s.packets.AwaitPacket? && s.cancelled then s.(packets := DiscardPackets) else s
    case DiscardPacket =>
      if s.packets.DiscardPackets? && s.packetQueue != []
      then s.(packetQueue := s.packetQueue[1..], fates := s.fates[s.packetQueue[0] := PacketShutdown]) else s
    case Finish(fate) =>
      if s.packets.Working? && EarlyFate(fate)
      then s.(packets := AwaitPacket, fates := s.fates[s.packets.i := fate]) else s
    case Mapped => if s.packets.Working? then s.(packets := Offering(s.packets.i)) else s
    case OfferNote =>
      if s.packets.Offering? && |s.noteQueue| < s.noteCapacity
      then s.(packets := AwaitPacket, noteQueue := s.noteQueue + [s.packets.i]) else s
    case DropNote =>
      if !s.packets.Offering? then s
      else if s.cancelled then s.(packets := AwaitPacket, fates := s.fates[s.packets.i := NoteShutdown])
      else if |s.noteQueue| >= s.noteCapacity
      then s.(packets := AwaitPacket, fates := s.fates[s.packets.i := NoteQueueFull]) else s
    case _ => s
  }

  function NoteStep(s: State, e: Event): (after: State) {
    match e
    case TakeNote =>
      if s.notes.AwaitNote? && s.noteQueue != []
      then s.(notes := Writing(s.noteQueue[0]), noteQueue := s.noteQueue[1..]) else s
    case Wrote(ok) =>
      if s.notes.Writing?
      then s.(notes := AwaitNote, sunk := s.sunk + [s.notes.i], fates := s.fates[s.notes.i := Sunk(ok)]) else s
    case StopNotes =>
      if (s.notes.AwaitNote? || s.notes.DiscardNotes?) && s.noteQueue == [] && s.notesClosed
      then s.(notes := NotesDone) else s
    case StartDiscardNotes => if s.notes.AwaitNote? && s.cancelled then s.(notes := DiscardNotes) else s
    case DiscardNote =>
      if s.notes.DiscardNotes? && s.noteQueue != []
      then s.(noteQueue := s.noteQueue[1..], fates := s.fates[s.noteQueue[0] := NoteShutdown]) else s
    case _ => s
  }

  function Step(s: State, e: Event): (after: State) {
    match e
    case Cancel => s.(cancelled := true)
    case Return =>
      if s.packetsClosed && s.packets.PacketsDone? && s.notes.NotesDone? then s.(returned := true) else s
    case NextPacket => CaptureStep(s, e)
    case NextFails => CaptureStep(s, e)
    case OfferPacket => CaptureStep(s, e)
    case DropPacket => CaptureStep(s, e)
    case ClosePackets => CaptureStep(s, e)
    case TakeNote => NoteStep(s, e)
    case Wrote(_) => NoteStep(s, e)
    case StopNotes => NoteStep(s, e)
    case StartDiscardNotes => NoteStep(s, e)
    case DiscardNote => NoteStep(s, e)
    case _ => PacketStep(s, e)
  }

  function Run(s: State, events: seq<Event>): (after: State) {
    if events == [] then s else Step(Run(s, events[..|events| - 1]), events[|events| - 1])
  }

  // --------------------------------------------------------------- invariants

  function InNotes(s: State): (line: seq<nat>) {
    (if s.notes.Writing? then [s.notes.i] else []) + s.noteQueue
  }

  function InPackets(s: State): (line: seq<nat>) {
    (if s.packets.Working? || s.packets.Offering? then [s.packets.i] else []) + s.packetQueue
  }

  function InCapture(s: State): (line: seq<nat>) {
    if s.capture.Holding? then [s.capture.i] else []
  }

  // The packets under way, the most advanced first.
  function Line(s: State): (line: seq<nat>) {
    InNotes(s) + InPackets(s) + InCapture(s)
  }

  // Every captured packet is under way or has met exactly one fate, and the
  // sink, the line and the packets yet to come are in capture order.
  ghost predicate Accounted(s: State) {
    && Ascending(s.sunk + Line(s) + [s.next])
    && (forall i: nat :: i < s.next <==> i in s.fates || i in Line(s))
    && (forall i | i in s.fates :: i !in Line(s))
    && (forall i :: i in s.sunk <==> i in s.fates && s.fates[i].Sunk?)
  }

  ghost predicate Orderly(s: State) {
    && |s.packetQueue| <= s.packetCapacity && |s.noteQueue| <= s.noteCapacity
    && (s.packetsClosed ==> s.capture.Returned?)
    && (s.notesClosed <==> s.packets.PacketsDone?)
    && (s.packets.PacketsDone? ==> s.packetsClosed && s.packetQueue == [])
    && (s.notes.NotesDone? ==> s.notesClosed && s.noteQueue == [])
    && (s.returned ==> s.packets.PacketsDone? && s.notes.NotesDone?)
  }

  lemma OrderlyStep(s: State, e: Event)
    requires Orderly(s)
    ensures Orderly(Step(s, e))
  {
  }

  // ------------------------------------------------------ effects on the line

  ghost predicate Stays(s: State, after: State) {
    Line(after) == Line(s) && after.sunk == s.sunk && after.fates == s.fates && after.next == s.next
  }

  ghost predicate Grows(s: State, after: State) {
    Line(after) == Line(s) + [s.next] && after.sunk == s.sunk && after.fates == s.fates && after.next == s.next + 1
  }

  ghost predicate Drops(s: State, after: State, front: seq<nat>, x: nat, back: seq<nat>, fate: Fate) {
    && Line(s) == front + [x] + back && Line(after) == front + back && !fate.Sunk?
    && after.sunk == s.sunk && after.fates == s.fates[x := fate] && after.next == s.next
  }

  ghost predicate Sinks(s: State, after: State, x: nat, rest: seq<nat>, ok: bool) {
    && Line(s) == [x] + rest && Line(after) == rest
    && after.sunk == s.sunk + [x] && after.fates == s.fates[x := Sunk(ok)] && after.next == s.next
  }

  lemma StaysAccounted(s: State, after: State)
    requires Accounted(s) && Stays(s, after)
    ensures Accounted(after)
  {
  }

  lemma GrowsAccounted(s: State, after: State)
    requires Accounted(s) && Grows(s, after)
    ensures Accounted(after)
  {
    var line := s.sunk + Line(s) + [s.next];
    assert after.sunk + Line(after) + [after.next] == line + [s.next + 1];
    assert forall i | 0 <= i < |line| :: line[i] <= line[|line| - 1] == s.next;
    assert forall i :: i in Line(after) <==> i in Line(s) || i == s.next;
  }

  // The place in front + [x] + back of a place in front + back.
  lemma PlaceWithout(front: seq<nat>, x: nat, back: seq<nat>, i: nat)
    requires i < |front + back|
    ensures (front + back)[i] == (front + [x] + back)[if i < |front| then i else i + 1]
  {
  }

  lemma AscendingWithout(front: seq<nat>, x: nat, back: seq<nat>)
    requires Ascending(front + [x] + back)
    ensures Ascending(front + back) && x !in front && x !in back
  {
    var all, less := front + [x] + back, front + back;
    forall i, j | 0 <= i < j < |less|
      ensures less[i] < less[j]
    {
      PlaceWithout(front, x, back, i);
      PlaceWithout(front, x, back, j);
    }
    assert all[|front|] == x;
    forall i | 0 <= i < |front| ensures front[i] != x { assert all[i] == front[i]; }
    forall i | 0 <= i < |back| ensures back[i] != x { assert all[|front| + 1 + i] == back[i]; }
  }

  lemma DropsAccounted(s: State, after: State, front: seq<nat>, x: nat, back: seq<nat>, fate: Fate)
    requires Accounted(s) && Drops(s, after, front, x, back, fate)
    ensures Accounted(after)
  {
    assert s.sunk + Line(s) + [s.next] == (s.sunk + front) + [x] + (back + [s.next]);
    assert after.sunk + Line(after) + [after.next] == (s.sunk + front) + (back + [s.next]);
    AscendingWithout(s.sunk + front, x, back + [s.next]);
    assert x !in front && x !in back && x !in s.sunk;
    assert forall i :: i in Line(s) <==> i in Line(after) || i == x;
  }

  lemma SinksAccounted(s: State, after: State, x: nat, rest: seq<nat>, ok: bool)
    requires Accounted(s) && Sinks(s, after, x, rest, ok)
    ensures Accounted(after)
  {
    assert s.sunk + Line(s) + [s.next] == s.sunk + [x] + (rest + [s.next]);
    assert after.sunk + Line(after) + [after.next] == s.sunk + [x] + (rest + [s.next]);
    AscendingWithout(s.sunk, x, rest + [s.next]);
    assert x !in rest;
    assert forall i :: i in Line(s) <==> i in Line(after) || i == x;
  }

  lemma CaptureGrows(s: State)
    requires s.capture.Capturing?
    ensures Grows(s, CaptureStep(s, NextPacket))
  {
    assert InCapture(s) == [] && InCapture(CaptureStep(s, NextPacket)) == [s.next];
  }

  lemma CaptureDrops(s: State)
    requires CaptureStep(s, DropPacket) != s
    ensures var after := CaptureStep(s, DropPacket);
            && s.capture.Holding? && s.capture.i in after.fates
            && Drops(s, after, InNotes(s) + InPackets(s), s.capture.i, [], after.fates[s.capture.i])
  {
    var after := CaptureStep(s, DropPacket);
    assert InCapture(s) == [s.capture.i] && InCapture(after) == [];
    assert InNotes(after) == InNotes(s) && InPackets(after) == InPackets(s);
  }

  lemma CaptureStays(s: State, e: Event)
    requires !e.DropPacket? && !(e.NextPacket? && s.capture.Capturing?)
    ensures Stays(s, CaptureStep(s, e))
  {
    var after := CaptureStep(s, e);
    if e.OfferPacket? && after != s { assert InPackets(after) + InCapture(after) == InPackets(s) + InCapture(s); }
  }

  lemma CaptureAccounted(s: State, e: Event)
    requires Accounted(s)
    ensures Accounted(CaptureStep(s, e))
  {
    var after := CaptureStep(s, e);
    if after == s { return; }
    if e.NextPacket? {
      CaptureGrows(s);
      GrowsAccounted(s, after);
    } else if e.DropPacket? {
      CaptureDrops(s);
      DropsAccounted(s, after, InNotes(s) + InPackets(s), s.capture.i, [], after.fates[s.capture.i]);
    } else {
      CaptureStays(s, e);
      StaysAccounted(s, after);
    }
  }

  lemma PacketDrops(s: State, e: Event)
    requires (e.DiscardPacket? || e.Finish? || e.DropNote?) && PacketStep(s, e) != s
    ensures var after := PacketStep(s, e);
            && InPackets(s) != [] && InPackets(s)[0] in after.fates
            && Drops(s, after, InNotes(s), InPackets(s)[0], InPackets(s)[1..] + InCapture(s), after.fates[InPackets(s)[0]])
  {
    var after := PacketStep(s, e);
    SplitMiddle(InNotes(s), InPackets(s), InCapture(s));
    assert InPackets(after) == InPackets(s)[1..] by { PacketLeaves(s, e); }
    assert InNotes(after) == InNotes(s) && InCapture(after) == InCapture(s);
  }

  lemma PacketLeaves(s: State, e: Event)
    requires (e.DiscardPacket? || e.Finish? || e.DropNote?) && PacketStep(s, e) != s
    ensures InPackets(s) != [] && InPackets(PacketStep(s, e)) == InPackets(s)[1..]
  {
  }

  lemma SplitMiddle(a: seq<nat>, b: seq<nat>, c: seq<nat>)
    requires b != []
    ensures a + b + c == a + [b[0]] + (b[1..] + c)
    ensures a + b[1..] + c == a + (b[1..] + c)
  {
    assert b == [b[0]] + b[1..];
  }

  lemma PacketMoves(s: State, e: Event)
    requires !e.DiscardPacket? && !e.Finish? && !e.DropNote?
    ensures Stays(s, PacketStep(s, e))
  {
    var after := PacketStep(s, e);
    if e.OfferNote? && after != s { NoteMoves(s); } else { PacketWaits(s, e); }
  }

  // A note that is queued moves from the packet stage to the note stage.
  lemma NoteMoves(s: State)
    requires PacketStep(s, OfferNote) != s
    ensures Stays(s, PacketStep(s, OfferNote))
  {
    var after := PacketStep(s, OfferNote);
    assert InNotes(after) == InNotes(s) + [s.packets.i];
    assert InPackets(s) == [s.packets.i] + InPackets(after);
    assert InNotes(s) + InPackets(s) == InNotes(after) + InPackets(after);
  }

  lemma PacketWaits(s: State, e: Event)
    requires !e.DiscardPacket? && !e.Finish? && !e.DropNote? && (e.OfferNote? ==> PacketStep(s, e) == s)
    ensures Stays(s, PacketStep(s, e))
  {
    var after := PacketStep(s, e);
    assert InPackets(after) == InPackets(s) && InNotes(after) == InNotes(s);
  }

  lemma PacketAccounted(s: State, e: Event)
    requires Accounted(s)
    ensures Accounted(PacketStep(s, e))
  {
    var after := PacketStep(s, e);
    if after == s { return; }
    if e.DiscardPacket? || e.Finish? || e.DropNote? {
      PacketDrops(s, e);
      var x := InPackets(s)[0];
      DropsAccounted(s, after, InNotes(s), x, InPackets(s)[1..] + InCapture(s), after.fates[x]);
    } else {
      PacketMoves(s, e);
      StaysAccounted(s, after);
    }
  }

  lemma NoteDrops(s: State)
    requires s.notes.DiscardNotes? && s.noteQueue != []
    ensures var after := NoteStep(s, DiscardNote);
            Drops(s, after, [], s.noteQueue[0], InNotes(after) + InPackets(s) + InCapture(s), NoteShutdown)
  {
    var after := NoteStep(s, DiscardNote);
    assert InNotes(s) == [s.noteQueue[0]] + InNotes(after);
    Regroup(s.noteQueue[0], InNotes(after), InPackets(s), InCapture(s));
  }

  lemma Regroup(x: nat, a: seq<nat>, b: seq<nat>, c: seq<nat>)
    ensures [x] + a + b + c == [] + [x] + (a + b + c) && [] + (a + b + c) == a + b + c
  {
  }

  lemma NoteSinks(s: State, ok: bool)
    requires s.notes.Writing?
    ensures var after := NoteStep(s, Wrote(ok)); Sinks(s, after, s.notes.i, Line(after), ok)
  {
    var after := NoteStep(s, Wrote(ok));
    assert InNotes(s) == [s.notes.i] + InNotes(after);
  }

  lemma NoteStays(s: State, e: Event)
    requires !e.DiscardNote? && !e.Wrote?
    ensures Stays(s, NoteStep(s, e))
  {
    if e.TakeNote? { assert InNotes(NoteStep(s, e)) == InNotes(s); }
  }

  lemma NoteAccounted(s: State, e: Event)
    requires Accounted(s)
    ensures Accounted(NoteStep(s, e))
  {
    var after := NoteStep(s, e);
    if after == s { return; }
    if e.DiscardNote? {
      NoteDrops(s);
      DropsAccounted(s, after, [], s.noteQueue[0], InNotes(after) + InPackets(s) + InCapture(s), NoteShutdown);
    } else if e.Wrote? {
      NoteSinks(s, e.ok);
      SinksAccounted(s, after, s.notes.i, Line(after), e.ok);
    } else {
      NoteStays(s, e);
      StaysAccounted(s, after);
    }
  }

  lemma StepAccounted(s: State, e: Event)
    requires Accounted(s)
    ensures Accounted(Step(s, e))
  {
    match e
    case Cancel => StaysAccounted(s, Step(s, e));
    case Return => StaysAccounted(s, Step(s, e));
    case _ =>
      CaptureAccounted(s, e);
      PacketAccounted(s, e);
      NoteAccounted(s, e);
  }

  lemma {:induction false} RunKeeps(packetCapacity: nat, noteCapacity: nat, events: seq<Event>)
    ensures Accounted(Run(Initial(packetCapacity, noteCapacity), events))
    ensures Orderly(Run(Initial(packetCapacity, noteCapacity), events))
    decreases |events|
  {
    if events != [] {
      var s := Run(Initial(packetCapacity, noteCapacity), events[..|events| - 1]);
      RunKeeps(packetCapacity, noteCapacity, events[..|events| - 1]);
      StepAccounted(s, events[|events| - 1]);
      OrderlyStep(s, events[|events| - 1]);
    }
  }

  // ------------------------------------------------------------ main theorems

  // When Run has returned, both queues are empty and closed, every captured
  // packet has met exactly one fate, and the notes that reached the sink did
  // so in capture order, each once.
  lemma ReturnedMeansSettled(packetCapacity: nat, noteCapacity: nat, events: seq<Event>)
    requires Run(Initial(packetCapacity, noteCapacity), events).returned
    ensures var s := Run(Initial(packetCapacity, noteCapacity), events);
            && s.packetQueue == [] && s.noteQueue == [] && s.packetsClosed && s.notesClosed
            && (forall i: nat :: i < s.next <==> i in s.fates)
            && Ascending(s.sunk)
            && (forall i :: i in s.sunk <==> i in s.fates && s.fates[i].Sunk?)
  {
    RunKeeps(packetCapacity, noteCapacity, events);
    var s := Run(Initial(packetCapacity, noteCapacity), events);
    assert Line(s) == [];
    assert s.sunk + Line(s) + [s.next] == s.sunk + [s.next];
    AscendingFront(s.sunk, [s.next]);
  }

  lemma AscendingFront(front: seq<nat>, back: seq<nat>)
    requires Ascending(front + back)
    ensures Ascending(front)
  {
    assert forall i | 0 <= i < |front| :: (front + back)[i] == front[i];
  }

  // Nothing is ever sent on a closed queue, and no queue is closed twice.
  lemma NoSendAfterClose(packetCapacity: nat, noteCapacity: nat, events: seq<Event>, e: Event)
    ensures var s := Run(Initial(packetCapacity, noteCapacity), events);
            var after := Step(s, e);
            && (|after.packetQueue| > |s.packetQueue| ==> !s.packetsClosed)
            && (|after.noteQueue| > |s.noteQueue| ==> !s.notesClosed)
            && (e.ClosePackets? && after != s ==> !s.packetsClosed)
            && (e.StopPackets? && after != s ==> !s.notesClosed)
            && (s.packetsClosed ==> after.packetsClosed) && (s.notesClosed ==> after.notesClosed)
  {
    RunKeeps(packetCapacity, noteCapacity, events);
    SendNeedsOpen(Run(Initial(packetCapacity, noteCapacity), events), e);
  }

  lemma SendNeedsOpen(s: State, e: Event)
    requires Orderly(s)
    ensures |Step(s, e).packetQueue| > |s.packetQueue| ==> !s.packetsClosed
    ensures |Step(s, e).noteQueue| > |s.noteQueue| ==> !s.notesClosed
    ensures e.ClosePackets? && Step(s, e) != s ==> !s.packetsClosed
    ensures e.StopPackets? && Step(s, e) != s ==> !s.notesClosed
    ensures (s.packetsClosed ==> Step(s, e).packetsClosed) && (s.notesClosed ==> Step(s, e).notesClosed)
  {
  }

  // ---------------------------------------------------------------- progress

  function PacketWork(p: PacketStage): (n: nat) {
    match p case AwaitPacket => 2 case Working(_) => 7 case Offering(_) => 6 case DiscardPackets => 1 case PacketsDone => 0
  }

  function NoteWork(n: NoteStage): (w: nat) {
    match n case AwaitNote => 2 case Writing(_) => 4 case DiscardNotes => 1 case NotesDone => 0
  }

  // The steps that can remain once the capture loop has ended.
  function Remaining(s: State): (n: nat) {
    6 * |s.packetQueue| + PacketWork(s.packets) + 3 * |s.noteQueue| + NoteWork(s.notes)
    + (if s.packetsClosed then 0 else 1) + (if s.cancelled then 0 else 1) + (if s.returned then 0 else 1)
  }

  // After the capture loop every step that does anything brings Run closer to
  // its return.
  lemma StepsShrink(s: State, e: Event)
    requires s.capture.Returned? && Step(s, e) != s
    ensures Step(s, e).capture.Returned? && Remaining(Step(s, e)) < Remaining(s)
  {
    PacketsShrink(s, e);
    NotesShrink(s, e);
  }

  lemma PacketsShrink(s: State, e: Event)
    ensures PacketStep(s, e) != s ==>
              PacketStep(s, e).capture == s.capture && Remaining(PacketStep(s, e)) < Remaining(s)
  {
  }

  lemma NotesShrink(s: State, e: Event)
    ensures NoteStep(s, e) != s ==> NoteStep(s, e).capture == s.capture && Remaining(NoteStep(s, e)) < Remaining(s)
  {
  }

  // And until it has returned some step is always possible: no stage waits
  // for another forever.
  lemma NeverStuck(s: State) returns (e: Event)
    requires Orderly(s) && s.capture.Returned? && !s.returned
    ensures Step(s, e) != s
  {
    if !s.packetsClosed {
      e := ClosePackets;
    } else if !s.packets.PacketsDone? {
      match s.packets {
        case AwaitPacket => e := if s.packetQueue != [] then TakePacket else StopPackets;
        case Working(_) => e := Mapped;
        case Offering(_) => e := if |s.noteQueue| < s.noteCapacity then OfferNote else DropNote;
        case DiscardPackets => e := if s.packetQueue != [] then DiscardPacket else StopPackets;
      }
    } else if !s.notes.NotesDone? {
      match s.notes {
        case AwaitNote => e := if s.noteQueue != [] then TakeNote else StopNotes;
        case Writing(_) => e := Wrote(true);
        case DiscardNotes => e := if s.noteQueue != [] then DiscardNote else StopNotes;
      }
    } else {
      e := Return;
    }
  }

  // Every step of the run does something.
  predicate Effective(s: State, events: seq<Event>) {
    events == [] ||
    (Effective(s, events[..|events| - 1])
     && Step(Run(s, events[..|events| - 1]), events[|events| - 1]) != Run(s, events[..|events| - 1]))
  }

  lemma {:induction false} EffectiveShrinks(s: State, events: seq<Event>)
    requires s.capture.Returned? && Effective(s, events)
    ensures Run(s, events).capture.Returned? && |events| + Remaining(Run(s, events)) <= Remaining(s)
    decreases |events|
  {
    if events != [] {
      EffectiveShrinks(s, events[..|events| - 1]);
      StepsShrink(Run(s, events[..|events| - 1]), events[|events| - 1]);
    }
  }

  lemma {:induction false} RunJoins(s: State, first: seq<Event>, second: seq<Event>)
    ensures Run(s, first + second) == Run(Run(s, first), second)
    decreases |second|
  {
    if second == [] {
      assert first + second == first;
    } else {
      var last := second[|second| - 1];
      RunJoins(s, first, second[..|second| - 1]);
      assert (first + second)[..|first + second| - 1] == first + second[..|second| - 1];
    }
  }

  // Shutdown terminates under every scheduling: once the capture loop has
  // ended, at most `Remaining` steps can still do anything, and a state in
  // which no step does anything is one where Run has returned.
  lemma CaptureEndsThenReturns(packetCapacity: nat, noteCapacity: nat, before: seq<Event>, events: seq<Event>)
    requires Run(Initial(packetCapacity, noteCapacity), before).capture.Returned?
    requires Effective(Run(Initial(packetCapacity, noteCapacity), before), events)
    ensures var s := Run(Initial(packetCapacity, noteCapacity), before);
            && |events| <= Remaining(s)
            && ((forall e :: Step(Run(s, events), e) == Run(s, events)) ==> Run(s, events).returned)
  {
    var start := Initial(packetCapacity, noteCapacity);
    EffectiveShrinks(Run(start, before), events);
    RunJoins(start, before, events);
    RunKeeps(packetCapacity, noteCapacity, before + events);
    var s := Run(start, before + events);
    if !s.returned { var e := NeverStuck(s); }
  }
}
