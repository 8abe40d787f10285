// Exactly which notes are played, what playing, ending and silencing them does
// to the device, and what a reconciliation does to the connection.
module MidiAdmission {
  import opened Common
  import opened MidiMessages
  import opened MidiProtocol
  import opened MidiSafety
  import opened MidiRate

  // -------------------------------------------------------------- conditions

  // The note is considered at all.
  predicate Considered(s: State, note: Note, cancelled: bool) {
    ValidNote(note) && !cancelled && !s.schedulerClosed
  }

  // The key still sounds and was played less than the minimum interval ago.
  predicate TooSoon(s: State, key: NoteKey, now: int) {
    key in s.active && now - s.active[key].started < s.limits.minimumRetriggerInterval
  }

  // The rate window is full.
  predicate Crowded(s: State, now: int) {
    |PruneRate(s.recent, now)| >= s.limits.maximumNotesPerSecond
  }

  // The note would be one voice too many.
  predicate Full(s: State, key: NoteKey) {
    key !in s.active && |s.active| >= s.limits.maximumPolyphony
  }

  // The device takes every message the note needs.
  predicate Reaches(s: State, key: NoteKey) {
    s.output.Some? && s.output.value.endurance >= if key in s.active then 2 else 1
  }

  // -------------------------------------------------------------- the answer

  lemma StartAnswers(s: State, note: SoundNote, now: int)
    ensures Start(s, note, now).1 ==
            if s.output.Some? && s.output.value.endurance >= 1 then Played else SendFailed
  {
  }

  lemma ReleaseAnswers(s: State, key: NoteKey)
    requires key in s.active
    ensures var (s', released) := Release(s, key);
            && (released <==> s.output.Some? && s.output.value.endurance >= 1)
            && (released ==> s'.output == Some(s.output.value.(endurance := s.output.value.endurance - 1)))
  {
  }

  lemma AdmitAnswers(s: State, note: SoundNote, now: int)
    ensures Admit(s, note, now).1 ==
            if TooSoon(s, note.pitch, now) then RetriggerLimited
            else if Crowded(s, now) then RateLimited
            else if Full(s, note.pitch) then PolyphonyLimited
            else if Reaches(s, note.pitch) then Played
            else SendFailed
  {
    var s1 := s.(recent := PruneRate(s.recent, now));
    if note.pitch in s.active {
      ReleaseAnswers(s1, note.pitch);
      StartAnswers(Release(s1, note.pitch).0, note, now);
    } else {
      StartAnswers(s1, note, now);
    }
  }

  // The whole table of answers: a note is played exactly if it is valid, not
  // cancelled, in time, within the rate and the polyphony, and the device
  // takes one message for it, or two if the key still sounds; and each refusal
  // names the first of these that fails.
  lemma AnswersAreExact(s: State, note: Note, now: int, cancelled: bool)
    ensures var r := WriteNote(s, note, now, cancelled).1;
            && (r == Invalid <==> !ValidNote(note))
            && (r == Cancelled <==> ValidNote(note) && cancelled)
            && (r == SchedulerClosed <==> ValidNote(note) && !cancelled && s.schedulerClosed)
            && (Considered(s, note, cancelled) ==>
                  && (r == RetriggerLimited <==> TooSoon(s, note.pitch, now))
                  && (r == RateLimited <==> !TooSoon(s, note.pitch, now) && Crowded(s, now))
                  && (r == PolyphonyLimited <==>
                        !TooSoon(s, note.pitch, now) && !Crowded(s, now) && Full(s, note.pitch))
                  && (r == Played <==>
                        && !TooSoon(s, note.pitch, now) && !Crowded(s, now) && !Full(s, note.pitch)
                        && Reaches(s, note.pitch)))
  {
    if Considered(s, note, cancelled) { AdmitAnswers(s.(clock := now), note, now); }
  }

  // -------------------------------------------------------------- the effect

  lemma StartPlays(s: State, note: SoundNote, now: int)
    requires s.output.Some? && s.output.value.endurance >= 1
    ensures var id := s.output.value.id;
            var s' := Start(s, note, now).0;
            && s'.trace == s.trace + [Accepted(id, On(note.pitch, note.velocity), s.clock)]
            && s'.output.Some? && s'.output.value.id == id
            && s'.active == s.active[note.pitch := ActiveNote(now, s.nextGeneration + 1, now + note.duration)]
            && Callback(note.pitch, s.nextGeneration + 1) in s'.armed
  {
  }

  lemma ReleaseEnds(s: State, key: NoteKey)
    requires key in s.active && s.output.Some? && s.output.value.endurance >= 1
    ensures var (s', released) := Release(s, key);
            && s'.trace == s.trace + [Accepted(s.output.value.id, Off(key), s.clock)]
            && s'.active == s.active - {key} && s'.nextGeneration == s.nextGeneration && s'.clock == s.clock
  {
  }

  // The messages of a played note: Note Off if the key sounds, then Note On.
  function Messages(id: nat, sounds: bool, note: SoundNote, now: int): (entries: seq<Entry>) {
    (if sounds then [Accepted(id, Off(note.pitch), now)] else [])
    + [Accepted(id, On(note.pitch, note.velocity), now)]
  }

  lemma AdmitPlays(s: State, note: SoundNote, now: int)
    requires s.clock == now && Admit(s, note, now).1 == Played
    ensures s.output.Some?
    ensures var id := s.output.value.id;
            var s' := Admit(s, note, now).0;
            && s'.trace == s.trace + Messages(id, note.pitch in s.active, note, now)
            && s'.output.Some? && s'.output.value.id == id
            && s'.active == s.active[note.pitch := ActiveNote(now, s.nextGeneration + 1, now + note.duration)]
            && Callback(note.pitch, s.nextGeneration + 1) in s'.armed
  {
    AdmitAnswers(s, note, now);
    var s1 := s.(recent := PruneRate(s.recent, now));
    if note.pitch in s.active {
      ReleaseAnswers(s1, note.pitch);
      ReleaseEnds(s1, note.pitch);
      StartPlays(Release(s1, note.pitch).0, note, now);
    } else {
      StartPlays(s1, note, now);
    }
  }

  // What playing a note makes of the state before it.
  ghost predicate Sounds(s: State, s': State, note: SoundNote, now: int) {
    && s.output.Some? && s'.output.Some? && s'.output.value.id == s.output.value.id
    && s'.trace == s.trace + Messages(s.output.value.id, note.pitch in Sounding(s.trace, s.output.value.id), note, now)
    && Sounding(s'.trace, s.output.value.id) == Sounding(s.trace, s.output.value.id) + {note.pitch}
    && s'.active == s.active[note.pitch := ActiveNote(now, s.nextGeneration + 1, now + note.duration)]
    && Callback(note.pitch, s.nextGeneration + 1) in s'.armed
  }

  lemma AdmittedNoteSounds(s: State, note: SoundNote, now: int)
    requires Inv(s) && !s.schedulerClosed && s.clock == now && Admit(s, note, now).1 == Played
    ensures Sounds(s, Admit(s, note, now).0, note, now)
  {
    AdmitPlays(s, note, now);
    AdmitKeeps(s, note, now);
    OwnedSounds(s, Admit(s, note, now).0, note.pitch);
  }

  // A played note ends what its key was playing, sounds at its own velocity
  // beside the other notes, and is owned from `now` with a timer of its own
  // that goes off after its duration.
  lemma PlayedNoteSounds(s: State, note: Note, now: int, cancelled: bool)
    requires Inv(s) && WriteNote(s, note, now, cancelled).1 == Played
    ensures ValidNote(note) && Sounds(s, WriteNote(s, note, now, cancelled).0, note, now)
  {
    WriteIsAdmission(s, note, now, cancelled);
    AdmittedNoteSounds(s.(clock := now), note, now);
    SoundsAtAnyClock(s, now, WriteNote(s, note, now, cancelled).0, note);
  }

  lemma WriteIsAdmission(s: State, note: Note, now: int, cancelled: bool)
    requires WriteNote(s, note, now, cancelled).1 == Played
    ensures Considered(s, note, cancelled) && WriteNote(s, note, now, cancelled) == Admit(s.(clock := now), note, now)
  {
  }

  lemma SoundsAtAnyClock(s: State, now: int, s': State, note: SoundNote)
    requires Sounds(s.(clock := now), s', note, now)
    ensures Sounds(s, s', note, now)
  {
  }

  // With the same device, one more active note is one more sounding note.
  lemma OwnedSounds(s: State, s': State, key: NoteKey)
    requires Owned(s) && Owned(s') && s.output.Some? && s'.output.Some? && s'.output.value.id == s.output.value.id
    requires key in s'.active && s'.active == s.active[key := s'.active[key]]
    ensures Sounding(s.trace, s.output.value.id) == s.active.Keys
    ensures Sounding(s'.trace, s.output.value.id) == s.active.Keys + {key}
  {
  }

  // A refused note leaves the device, the notes and the timers alone; a note
  // the device did not take disconnects it, and nothing sounds or runs on.
  lemma RefusedNoteIsSilent(s: State, note: Note, now: int, cancelled: bool)
    requires Inv(s) && WriteNote(s, note, now, cancelled).1 != Played
    ensures var (s', r) := WriteNote(s, note, now, cancelled);
            if r == SendFailed
            then s'.output.None? && s'.active == map[] && s'.armed == {} && Plays(s'.trace) == Plays(s.trace)
            else s' == s.(clock := s'.clock, recent := s'.recent)
  {
    if Considered(s, note, cancelled) { RefusedAdmission(s.(clock := now), note, now); }
  }

  lemma StartFails(s: State, note: SoundNote, now: int)
    requires Timed(s) && Start(s, note, now).1 == SendFailed
    ensures var s' := Start(s, note, now).0;
            s'.output.None? && s'.active == map[] && s'.armed == {} && s'.trace == s.trace
  {
  }

  lemma ReleaseFails(s: State, key: NoteKey)
    requires Inv(s) && key in s.active && !Release(s, key).1
    ensures var s' := Release(s, key).0;
            s'.output.None? && s'.active == map[] && s'.armed == {} && Plays(s'.trace) == Plays(s.trace)
  {
    ReleaseKeeps(s, key);
    assert CallbacksOf(map[]) == {};
  }

  lemma RefusedAdmission(s: State, note: SoundNote, now: int)
    requires Inv(s) && Admit(s, note, now).1 != Played
    ensures var (s', r) := Admit(s, note, now);
            if r == SendFailed
            then s'.output.None? && s'.active == map[] && s'.armed == {} && Plays(s'.trace) == Plays(s.trace)
            else s' == s.(recent := s'.recent)
  {
    AdmitAnswers(s, note, now);
    var s1 := s.(recent := PruneRate(s.recent, now));
    if Admit(s, note, now).1 == SendFailed {
      if note.pitch in s.active {
        ReleaseKeeps(s1, note.pitch);
        var (s2, released) := Release(s1, note.pitch);
        if released { StartFails(s2, note, now); } else { ReleaseFails(s1, note.pitch); }
      } else {
        StartFails(s1, note, now);
      }
    }
  }

  // --------------------------------------------------------------- all runs

  // For a clock that never goes back the rate window holds exactly the Note
  // Ons of the last second.
  lemma WindowIsTheLastSecond(s: State, now: int)
    requires Rated(s) && s.clock <= now
    ensures |PruneRate(s.recent, now)| == |Window(Plays(s.trace), now)|
  {
    PruneRemembers(Plays(s.trace), s.recent, s.clock, now);
    var dropped := PruneKeepsSuffix(s.recent, now);
    KeptIsTheWindow(Plays(s.trace), PruneRate(s.recent, now), now);
  }

  lemma KeptIsTheWindow(plays: seq<Play>, kept: seq<int>, now: int)
    requires InOrder(plays) && Remembers(plays, kept, now) && (kept != [] ==> kept[0] > now - SECOND)
    ensures |kept| == |Window(plays, now)|
  {
    var first: nat := |plays| - |kept|;
    forall i: nat ensures i in Window(plays, now) <==> i in Interval(first, |kept|) {
      if first <= i < |plays| {
        assert kept[0] == plays[first].at <= plays[i].at == kept[i - first];
      }
    }
    assert Window(plays, now) == Interval(first, |kept|);
  }

  // In every run with such a clock, and with a device connected, a note is
  // played if and only if it is valid and timely, judged by what the device
  // was sent alone: its key, if it sounds, was last played at least the
  // minimum interval ago; fewer than the maximum Note Ons were accepted in the
  // last second; there is room for one more voice, or the key sounds already;
  // and the device takes the messages.
  lemma RunsPlayExactly(limits: Limits, clock: int, events: seq<Event>, note: Note, now: int)
    requires Forward(clock, events) && Run(Initial(limits, clock), events).clock <= now
    ensures var s := Run(Initial(limits, clock), events);
            s.output.Some? && ValidNote(note) ==>
              var sounding := Sounding(s.trace, s.output.value.id);
              var previous := LastPlay(Plays(s.trace), note.pitch);
              && (note.pitch in sounding ==> previous.Some?)
              && (WriteNote(s, note, now, false).1 == Played <==>
                    && !s.schedulerClosed
                    && (note.pitch in sounding ==> now - previous.value >= limits.minimumRetriggerInterval)
                    && |Window(Plays(s.trace), now)| < limits.maximumNotesPerSecond
                    && (note.pitch in sounding || |sounding| < limits.maximumPolyphony)
                    && s.output.value.endurance >= if note.pitch in sounding then 2 else 1)
  {
    var start := Initial(limits, clock);
    RunKeeps(start, events);
    RunRated(start, events, clock);
    LimitsFixed(start, events);
    PlaysExactly(Run(start, events), note, now);
  }

  lemma PlaysExactly(s: State, note: Note, now: int)
    requires Inv(s) && Rated(s) && s.clock <= now
    ensures s.output.Some? && ValidNote(note) ==>
              var sounding := Sounding(s.trace, s.output.value.id);
              var previous := LastPlay(Plays(s.trace), note.pitch);
              && (note.pitch in sounding ==> previous.Some?)
              && (WriteNote(s, note, now, false).1 == Played <==>
                    && !s.schedulerClosed
                    && (note.pitch in sounding ==> now - previous.value >= s.limits.minimumRetriggerInterval)
                    && |Window(Plays(s.trace), now)| < s.limits.maximumNotesPerSecond
                    && (note.pitch in sounding || |sounding| < s.limits.maximumPolyphony)
                    && s.output.value.endurance >= if note.pitch in sounding then 2 else 1)
  {
    AnswersAreExact(s, note, now, false);
    WindowIsTheLastSecond(s, now);
    assert |s.active| == |s.active.Keys|;
  }

  // -------------------------------------------------------- timers and panic

  // The timer of an active note ends that note and no other, with a Note Off.
  lemma TimerEndsTheNote(s: State, callback: Callback)
    requires Inv(s) && callback in s.armed && s.output.Some? && s.output.value.endurance >= 1
    ensures var s' := FireCallback(s, callback);
            && s'.trace == s.trace + [Accepted(s.output.value.id, Off(callback.key), s.clock)]
            && s'.active == s.active - {callback.key}
            && Sounding(s'.trace, s.output.value.id) == Sounding(s.trace, s.output.value.id) - {callback.key}
  {
    ReleaseEnds(s, callback.key);
    Extended(s.trace, Accepted(s.output.value.id, Off(callback.key), s.clock), s.output.value.id);
  }

  // A panic silences the device, which stays connected if it takes all sixteen
  // messages, and leaves the scheduler open for later notes.
  lemma PanicSilences(s: State)
    requires Inv(s) && !s.runtimeClosed
    ensures var s' := PanicRuntime(s);
            && s'.active == map[] && s'.armed == {} && s'.schedulerClosed == s.schedulerClosed
            && (s'.output.Some? <==> s.output.Some? && s.output.value.endurance >= 16)
            && (s'.output.Some? ==> Sounding(s'.trace, s'.output.value.id) == {})
  {
    PanicKeeps(s, 0);
    assert CallbacksOf(map[]) == {};
  }

  // ---------------------------------------------------------- reconciliation

  // What a whole reconciliation does to the connection: a vanished device is
  // disconnected, another one that opens and takes its reset is connected and
  // silent, and everything else keeps the connection and its notes.
  lemma ReconcilesTheConnection(s: State, discovery: Discovery)
    requires Inv(s) && !s.stopped && s.pending == Idle && !s.runtimeClosed
    ensures var s' := CommitTransition(BeginReconcile(s, discovery));
            && s'.pending == Idle
            && match discovery
               case DiscoveryFailed => s' == s
               case OpenFailed(_) => s' == s
               case NothingSelected => s'.output.None? && s'.active == map[]
               case OpenedOutput(device, endurance, _) =>
                 if s.output.Some? && s.device == device then s' == s
                 else if endurance < 16 then s'.output == s.output && s'.device == s.device && s'.active == s.active
                 else s'.output == Some(Output(s.nextOutput, endurance - 16)) && s'.device == device
                      && s'.active == map[] && Sounding(s'.trace, s.nextOutput) == {}
  {
    ReconcileKeeps(s, discovery);
    var decided := BeginReconcile(s, discovery);
    CommitKeeps(decided);
    if decided.pending != Idle && decided.output.Some? { PanicKeeps(decided.(pending := Idle), 0); }
  }

  // A closed runtime connects and disconnects nothing.
  lemma ClosedKeepsTheConnection(s: State, discovery: Discovery)
    requires s.runtimeClosed
    ensures var s' := CommitTransition(BeginReconcile(s, discovery));
            s'.output == s.output && s'.device == s.device
  {
  }

  lemma StoppedStep(s: State, event: Event)
    requires s.stopped && s.output.None? && s.pending == Idle
    ensures var s' := Step(s, event); s'.stopped && s'.output.None? && s'.pending == Idle
  {
    match event {
      case Write(note, now, cancelled) =>
        if ValidNote(note) { StoppedAdmission(s.(clock := now), note, now); }
      case _ =>
    }
  }

  lemma StoppedAdmission(s: State, note: SoundNote, now: int)
    requires s.stopped && s.output.None? && s.pending == Idle
    ensures var s' := Admit(s, note, now).0; s'.stopped && s'.output.None? && s'.pending == Idle
  {
  }

  // Once the manager has stopped, no later run connects a device.
  lemma {:induction false} StoppedForGood(s: State, events: seq<Event>)
    requires s.stopped && s.output.None? && s.pending == Idle
    ensures Run(s, events).stopped && Run(s, events).output.None?
    decreases |events|
  {
    if events != [] {
      StoppedStep(s, events[0]);
      StoppedForGood(Step(s, events[0]), events[1..]);
    }
  }

  lemma StopDisconnects(s: State, events: seq<Event>)
    requires s.pending == Idle
    ensures Run(Stop(s), events).output.None?
  {
    StoppedForGood(Stop(s), events);
  }
}
