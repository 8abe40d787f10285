// Why a packet met its fate: nothing is lost to a shutdown that did not
// happen, or to a queue that had room.
module PipelineFates {
  import opened Common
  import opened Pipeline

  // Why packet i meets this fate now, by what it was doing.
  ghost predicate Caused(s: State, e: Event, i: nat, fate: Fate) {
    match fate
    case PacketQueueFull => s.capture == Holding(i) && !s.cancelled && |s.packetQueue| >= s.packetCapacity
    case NoteQueueFull => s.packets == Offering(i) && !s.cancelled && |s.noteQueue| >= s.noteCapacity
    case PacketShutdown => (s.capture == Holding(i) && s.cancelled) || (s.packets.DiscardPackets? && i in s.packetQueue)
    case NoteShutdown => (s.packets == Offering(i) && s.cancelled) || (s.notes.DiscardNotes? && i in s.noteQueue)
    case Sunk(ok) => e == Wrote(ok) && s.notes == Writing(i)
    case _ => e == Finish(fate) && s.packets == Working(i)
  }

  lemma CaptureCauses(s: State, e: Event, i: nat)
    requires i in CaptureStep(s, e).fates && i !in s.fates
    ensures Caused(s, e, i, CaptureStep(s, e).fates[i])
  {
  }

  lemma PacketCauses(s: State, e: Event, i: nat)
    requires i in PacketStep(s, e).fates && i !in s.fates
    ensures Caused(s, e, i, PacketStep(s, e).fates[i])
  {
  }

  lemma NoteCauses(s: State, e: Event, i: nat)
    requires i in NoteStep(s, e).fates && i !in s.fates
    ensures Caused(s, e, i, NoteStep(s, e).fates[i])
  {
  }

  // No fate without its cause.
  lemma FatesHaveTheirCause(s: State, e: Event, i: nat)
    requires i in Step(s, e).fates && i !in s.fates
    ensures Caused(s, e, i, Step(s, e).fates[i])
  {
    if i in CaptureStep(s, e).fates { CaptureCauses(s, e, i); }
    if i in PacketStep(s, e).fates { PacketCauses(s, e, i); }
    if i in NoteStep(s, e).fates { NoteCauses(s, e, i); }
  }

  // Queues are discarded only after a cancellation.
  ghost predicate Patient(s: State) {
    (s.packets.DiscardPackets? || s.notes.DiscardNotes?) ==> s.cancelled
  }

  lemma {:induction false} AscendingIsShort(s: seq<nat>, bound: nat)
    requires Ascending(s) && forall i | 0 <= i < |s| :: s[i] < bound
    ensures |s| <= bound
    decreases |s|
  {
    if s != [] {
      var front, last := s[..|s| - 1], s[|s| - 1];
      assert forall i | 0 <= i < |front| :: front[i] < last;
      AscendingIsShort(front, last);
    }
  }

  // The packets under way are fewer than those captured.
  lemma LineIsShort(s: State)
    requires Accounted(s)
    ensures |Line(s)| <= s.next
  {
    var all := s.sunk + Line(s) + [s.next];
    assert forall i | 0 <= i < |Line(s)| :: Line(s)[i] == all[|s.sunk| + i];
    assert all[|all| - 1] == s.next;
    forall i | 0 <= i < |Line(s)| ensures Line(s)[i] < s.next { assert all[|s.sunk| + i] < all[|all| - 1]; }
    AscendingIsShort(Line(s), s.next);
  }

  // Without a cancellation no fate is a shutdown, and a full queue means more
  // packets than its capacity.
  ghost predicate Deserved(s: State) {
    && Patient(s) && !s.cancelled
    && forall i | i in s.fates ::
         && !s.fates[i].PacketShutdown? && !s.fates[i].NoteShutdown?
         && (s.fates[i].PacketQueueFull? ==> s.packetCapacity < s.next)
         && (s.fates[i].NoteQueueFull? ==> s.noteCapacity < s.next)
  }

  // A step keeps the fates, the capacities and the patience.
  lemma StepFrame(s: State, e: Event)
    requires Patient(s)
    ensures var after := Step(s, e);
            && Patient(after) && s.next <= after.next && (after.cancelled <==> s.cancelled || e.Cancel?)
            && after.packetCapacity == s.packetCapacity && after.noteCapacity == s.noteCapacity
  {
  }

  // No stage settles a packet that is not in line.
  lemma CaptureSpares(s: State, e: Event, i: nat)
    requires i in s.fates && !(s.capture.Holding? && s.capture.i == i)
    ensures i in CaptureStep(s, e).fates && CaptureStep(s, e).fates[i] == s.fates[i]
  {
  }

  lemma PacketSpares(s: State, e: Event, i: nat)
    requires i in s.fates && !((s.packets.Working? || s.packets.Offering?) && s.packets.i == i)
    requires s.packetQueue != [] ==> s.packetQueue[0] != i
    ensures i in PacketStep(s, e).fates && PacketStep(s, e).fates[i] == s.fates[i]
  {
  }

  lemma NoteSpares(s: State, e: Event, i: nat)
    requires i in s.fates && !(s.notes.Writing? && s.notes.i == i)
    requires s.noteQueue != [] ==> s.noteQueue[0] != i
    ensures i in NoteStep(s, e).fates && NoteStep(s, e).fates[i] == s.fates[i]
  {
  }

  lemma FatesStay(s: State, e: Event, i: nat)
    requires Accounted(s) && i in s.fates
    ensures i in Step(s, e).fates && Step(s, e).fates[i] == s.fates[i]
  {
    assert i !in Line(s);
    LineHolds(s);
    CaptureSpares(s, e, i);
    PacketSpares(s, e, i);
    NoteSpares(s, e, i);
  }

  // Every packet a stage is about to settle is in line.
  lemma LineHolds(s: State)
    ensures s.capture.Holding? ==> s.capture.i in Line(s)
    ensures s.packets.Working? || s.packets.Offering? ==> s.packets.i in Line(s)
    ensures s.packetQueue != [] ==> s.packetQueue[0] in Line(s)
    ensures s.notes.Writing? ==> s.notes.i in Line(s)
    ensures s.noteQueue != [] ==> s.noteQueue[0] in Line(s)
  {
    assert s.packetQueue != [] ==> s.packetQueue[0] in InPackets(s);
    assert s.noteQueue != [] ==> s.noteQueue[0] in InNotes(s);
  }

  lemma StepDeserved(s: State, e: Event)
    requires Accounted(s) && Deserved(s) && !e.Cancel?
    ensures Deserved(Step(s, e))
  {
    var after := Step(s, e);
    StepFrame(s, e);
    LineIsShort(s);
    forall i | i in after.fates
      ensures !after.fates[i].PacketShutdown? && !after.fates[i].NoteShutdown?
      ensures after.fates[i].PacketQueueFull? ==> after.packetCapacity < after.next
      ensures after.fates[i].NoteQueueFull? ==> after.noteCapacity < after.next
    {
      if i in s.fates {
        FatesStay(s, e, i);
      } else {
        FatesHaveTheirCause(s, e, i);
        assert |Line(s)| >= |InCapture(s)| + |s.packetQueue| && |Line(s)| >= |s.noteQueue| + |InPackets(s)|;
      }
    }
  }

  // In every run without a cancellation nothing is lost to a shutdown, and a
  // queue loses a packet only if more packets were captured than it holds.
  lemma {:induction false} UncancelledRunsLoseOnlyToFullQueues(packetCapacity: nat, noteCapacity: nat, events: seq<Event>)
    requires forall e | e in events :: !e.Cancel?
    ensures Deserved(Run(Initial(packetCapacity, noteCapacity), events))
    ensures var s := Run(Initial(packetCapacity, noteCapacity), events);
            s.packetCapacity == packetCapacity && s.noteCapacity == noteCapacity
    decreases |events|
  {
    if events != [] {
      var front, last := events[..|events| - 1], events[|events| - 1];
      UncancelledRunsLoseOnlyToFullQueues(packetCapacity, noteCapacity, front);
      RunKeeps(packetCapacity, noteCapacity, front);
      assert last in events;
      StepDeserved(Run(Initial(packetCapacity, noteCapacity), front), last);
      StepFrame(Run(Initial(packetCapacity, noteCapacity), front), last);
    }
  }

  // So a run that was not cancelled and had room for all its packets handed
  // every packet to the sink, or ended it for what it is.
  lemma RoomyRunsDeliver(packetCapacity: nat, noteCapacity: nat, events: seq<Event>, i: nat)
    requires forall e | e in events :: !e.Cancel?
    requires var s := Run(Initial(packetCapacity, noteCapacity), events);
             s.returned && i < s.next <= packetCapacity && s.next <= noteCapacity
    ensures var s := Run(Initial(packetCapacity, noteCapacity), events);
            i in s.fates && (EarlyFate(s.fates[i]) || (s.fates[i].Sunk? && i in s.sunk))
  {
    UncancelledRunsLoseOnlyToFullQueues(packetCapacity, noteCapacity, events);
    ReturnedMeansSettled(packetCapacity, noteCapacity, events);
  }
}
