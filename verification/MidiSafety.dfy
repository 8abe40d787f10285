// What every run of the MIDI protocol keeps: the connected output plays
// exactly the notes the scheduler owns, each owned note has its own live
// timer, and nothing is played after shutdown.
module MidiSafety {
  import opened Common
  import opened MidiMessages
  import opened MidiProtocol

  // --------------------------------------------------------------- invariant

  // A connected output plays exactly the active notes. Without an output
  // nothing is active, unless the manager has stopped for good.
  ghost predicate Owned(s: State) {
    match s.output
    case Some(output) => Sounding(s.trace, output.id) == s.active.Keys
    case None => s.stopped || s.active == map[]
  }

  // An output that waits for the gate is silent and is not the current one.
  ghost predicate Waiting(s: State) {
    && (s.output.Some? ==> s.output.value.id < s.nextOutput && !s.stopped)
    && (s.pending != Idle ==> !s.stopped)
    && (s.pending.Connecting? ==>
          && s.pending.output.id < s.nextOutput
          && (s.output.Some? ==> s.output.value.id != s.pending.output.id)
          && Sounding(s.trace, s.pending.output.id) == {})
  }

  // Exactly the active notes have a live timer carrying their generation; a
  // stopped timer is never one of them.
  ghost predicate Timed(s: State) {
    && s.armed == CallbacksOf(s.active)
    && s.armed !! s.late
    && forall callback | callback in s.armed + s.late :: callback.generation <= s.nextGeneration
  }

  ghost predicate Shut(s: State) {
    && (s.runtimeClosed ==> s.schedulerClosed)
    && (s.schedulerClosed ==> s.active == map[])
  }

  // On every output, Note On comes only while the note is silent and Note Off
  // only while it sounds.
  ghost predicate Alternates(trace: seq<Entry>) {
    trace == [] ||
    (Alternates(trace[..|trace| - 1]) && Fits(trace[..|trace| - 1], trace[|trace| - 1]))
  }

  ghost predicate Fits(before: seq<Entry>, entry: Entry) {
    match entry
    case Accepted(id, On(key, _), _) => key !in Sounding(before, id)
    case Accepted(id, Off(key), _) => key in Sounding(before, id)
    case _ => true
  }

  ghost predicate Core(s: State) {
    && Owned(s) && Waiting(s) && Timed(s)
    && Alternates(s.trace)
    && |s.active| <= s.limits.maximumPolyphony
  }

  ghost predicate Inv(s: State) {
    Core(s) && Shut(s)
  }

  // ------------------------------------------------------------ trace lemmas

  datatype Play = Play(key: NoteKey, at: int)

  // The accepted Note Ons, oldest first.
  function Plays(trace: seq<Entry>): (plays: seq<Play>) {
    if trace == [] then []
    else
      var last := |trace| - 1;
      match trace[last]
      case Accepted(_, On(key, _), at) => Plays(trace[..last]) + [Play(key, at)]
      case _ => Plays(trace[..last])
  }

  lemma Extended(trace: seq<Entry>, entry: Entry, id: nat)
    ensures Sounding(trace + [entry], id) ==
            if entry.output == id then Hear(Sounding(trace, id), entry) else Sounding(trace, id)
    ensures Alternates(trace + [entry]) <==> Alternates(trace) && Fits(trace, entry)
    ensures Plays(trace + [entry]) ==
            if entry.Accepted? && entry.command.On? then Plays(trace) + [Play(entry.command.key, entry.at)]
            else Plays(trace)
  {
    assert (trace + [entry])[..|trace|] == trace;
  }

  // Output `other`, unless it is the current one, plays what it played before.
  ghost predicate Untouched(before: seq<Entry>, after: seq<Entry>, mine: Option<Output>, other: nat) {
    (mine.Some? && mine.value.id == other) || Sounding(after, other) == Sounding(before, other)
  }

  lemma SendEffect(s: State, command: Command, other: nat)
    requires Alternates(s.trace)
    requires s.output.Some? ==> Fits(s.trace, Accepted(s.output.value.id, command, s.clock))
    ensures var (s', sent) := Send(s, command);
            && Alternates(s'.trace)
            && Untouched(s.trace, s'.trace, s.output, other)
            && (sent == Sent ==>
                  && s.output.Some? && s'.output.Some? && s'.output.value.id == s.output.value.id
                  && Sounding(s'.trace, s.output.value.id) ==
                     Hear(Sounding(s.trace, s.output.value.id), Accepted(s.output.value.id, command, s.clock))
                  && Plays(s'.trace) == Plays(s.trace) + (if command.On? then [Play(command.key, s.clock)] else []))
            && (sent != Sent ==>
                  s' == ClearActive(s.(output := None, device := if s.output.Some? then NO_DEVICE else s.device)))
  {
    if s.output.Some? && s.output.value.endurance != 0 {
      Extended(s.trace, Accepted(s.output.value.id, command, s.clock), s.output.value.id);
      Extended(s.trace, Accepted(s.output.value.id, command, s.clock), other);
    }
  }

  function Below(sounding: set<NoteKey>, channel: nat): (kept: set<NoteKey>) {
    set key | key in sounding && key.channel < channel
  }

  // An output that accepts All Notes Off on every channel from `channel` up
  // keeps only the notes of the earlier channels.
  lemma {:induction false} QuietSilences(trace: seq<Entry>, output: Output, channel: nat, at: int)
    requires 1 <= channel <= 17
    requires output.endurance + channel >= 17
    ensures Sounding(QuietTrace(trace, output, channel, at), output.id) ==
            Below(Sounding(trace, output.id), channel)
    decreases 17 - channel
  {
    if channel <= 16 {
      var entry := Accepted(output.id, ChannelOff(channel), at);
      Extended(trace, entry, output.id);
      QuietSilences(trace + [entry], output.(endurance := output.endurance - 1), channel + 1, at);
    }
  }

  // All Notes Off plays nothing, breaks no alternation and reaches no other output.
  lemma {:induction false} QuietFrame(trace: seq<Entry>, output: Output, channel: nat, at: int, other: nat)
    requires Alternates(trace)
    ensures var after := QuietTrace(trace, output, channel, at);
            && Alternates(after) && Plays(after) == Plays(trace)
            && (other != output.id ==> Sounding(after, other) == Sounding(trace, other))
    decreases 17 - channel
  {
    if channel <= 16 && output.endurance != 0 {
      var entry := Accepted(output.id, ChannelOff(channel), at);
      Extended(trace, entry, other);
      QuietFrame(trace + [entry], output.(endurance := output.endurance - 1), channel + 1, at, other);
    }
  }

  lemma CallbackRemoved(active: map<NoteKey, ActiveNote>, key: NoteKey)
    requires key in active
    ensures CallbacksOf(active - {key}) == CallbacksOf(active) - {Callback(key, active[key].generation)}
  {
    forall callback: Callback | callback in CallbacksOf(active) && callback.key != key
      ensures callback in CallbacksOf(active - {key})
    {
      assert callback.key in active - {key};
    }
  }

  lemma CallbackAdded(active: map<NoteKey, ActiveNote>, key: NoteKey, note: ActiveNote)
    requires key !in active
    ensures CallbacksOf(active[key := note]) == CallbacksOf(active) + {Callback(key, note.generation)}
  {
    var grown := active[key := note];
    assert key in grown;
    forall callback: Callback | callback in CallbacksOf(active)
      ensures callback in CallbacksOf(grown)
    {
      assert callback.key in grown;
    }
  }

  // The output whose silence the invariant speaks of.
  function Watched(s: State): (id: nat) {
    if s.pending.Connecting? then s.pending.output.id else s.nextOutput
  }

  // ------------------------------------------------------- step preservation

  lemma PanicKeeps(s: State, other: nat)
    requires Core(s)
    ensures var s' := PanicLocked(s);
            && Core(s') && s'.active == map[]
            && (s'.output.Some? ==> s.output.Some? && s'.output.value.id == s.output.value.id)
            && Plays(s'.trace) == Plays(s.trace)
            && s' == ClearActive(s).(output := s'.output, device := s'.device, trace := s'.trace)
            && Untouched(s.trace, s'.trace, s.output, other)
  {
    if s.output.Some? {
      QuietFrame(s.trace, s.output.value, 1, s.clock, other);
      QuietFrame(s.trace, s.output.value, 1, s.clock, Watched(s));
      if s.output.value.endurance >= 16 {
        QuietSilences(s.trace, s.output.value, 1, s.clock);
      }
    }
  }

  lemma ReleaseKeeps(s: State, key: NoteKey)
    requires Inv(s) && key in s.active
    ensures var (s', released) := Release(s, key);
            && Inv(s') && key !in s'.active
            && Plays(s'.trace) == Plays(s.trace)
            && s'.limits == s.limits && s'.recent == s.recent && s'.clock == s.clock
            && s'.schedulerClosed == s.schedulerClosed && s'.active.Keys <= s.active.Keys
            && (released ==> s'.active == s.active - {key} && s'.output.Some?)
            && (forall other | other in s'.active :: s'.active[other] == s.active[other])
            && Callback(key, s.active[key].generation) !in s'.armed
  {
    var callback := Callback(key, s.active[key].generation);
    var s1 := s.(active := s.active - {key},
                 armed := s.armed - {callback},
                 late := s.late + {callback});
    CallbackRemoved(s.active, key);
    assert s1.active.Keys == s.active.Keys - {key};
    assert |s1.active| == |s1.active.Keys| < |s.active.Keys| == |s.active|;
    SendEffect(s1, Off(key), Watched(s));
    var (s2, sent) := Send(s1, Off(key));
    if sent != Sent {
      SendEffect(s2, ChannelOff(key.channel), Watched(s));
    }
  }

  lemma StartEffect(s: State, note: SoundNote, now: int)
    requires Alternates(s.trace) && note.pitch !in s.active
    requires s.output.Some? ==> Sounding(s.trace, s.output.value.id) == s.active.Keys
    ensures var (s', result) := Start(s, note, now);
            && (result == Played || result == SendFailed)
            && (result == Played ==>
                  && s.output.Some? && s'.output.Some? && s'.output.value.id == s.output.value.id
                  && s' == Started(s, s'.output, s'.trace, note, now)
                  && Alternates(s'.trace)
                  && Sounding(s'.trace, s.output.value.id) == s.active.Keys + {note.pitch}
                  && Untouched(s.trace, s'.trace, s.output, Watched(s))
                  && Plays(s'.trace) == Plays(s.trace) + [Play(note.pitch, s.clock)])
            && (result != Played ==> s' == ClearActive(s.(output := None, device := s'.device)))
  {
    StartShape(s, note, now);
    SendEffect(s, On(note.pitch, note.velocity), Watched(s));
  }

  // The state after a note was played, or the failed send.
  lemma StartShape(s: State, note: SoundNote, now: int)
    ensures var (s', result) := Start(s, note, now);
            var (s1, sent) := Send(s, On(note.pitch, note.velocity));
            && result == (if sent == Sent then Played else SendFailed)
            && s' == (if sent == Sent then Started(s, s1.output, s1.trace, note, now) else s1)
  {
  }

  function Started(s: State, output: Option<Output>, trace: seq<Entry>, note: SoundNote, now: int): (s': State) {
    s.(output := output, trace := trace, recent := s.recent + [now],
       nextGeneration := s.nextGeneration + 1,
       armed := s.armed + {Callback(note.pitch, s.nextGeneration + 1)},
       active := s.active[note.pitch := ActiveNote(now, s.nextGeneration + 1, now + note.duration)])
  }

  // A new note with a new generation keeps the timers matched to the notes.
  lemma StartTimed(s: State, s': State, key: NoteKey, note: ActiveNote)
    requires Timed(s) && key !in s.active
    requires note.generation == s.nextGeneration + 1 == s'.nextGeneration
    requires s'.active == s.active[key := note] && s'.late == s.late
    requires s'.armed == s.armed + {Callback(key, note.generation)}
    ensures Timed(s')
    ensures s'.active.Keys == s.active.Keys + {key} && |s'.active| == |s.active| + 1
  {
    CallbackAdded(s.active, key, note);
    assert s'.active.Keys == s.active.Keys + {key};
    assert |s'.active.Keys| == |s.active.Keys| + 1;
  }

  lemma StartedKeeps(s: State, output: Output, trace: seq<Entry>, note: SoundNote, now: int)
    requires Core(s) && note.pitch !in s.active && |s.active| < s.limits.maximumPolyphony
    requires s.output.Some? && output.id == s.output.value.id
    requires Alternates(trace) && Sounding(trace, output.id) == s.active.Keys + {note.pitch}
    requires Untouched(s.trace, trace, s.output, Watched(s))
    ensures Core(Started(s, Some(output), trace, note, now))
  {
    StartTimed(s, Started(s, Some(output), trace, note, now), note.pitch, ActiveNote(now, s.nextGeneration + 1, now + note.duration));
  }

  lemma ClearedKeeps(s: State, device: Device)
    requires Core(s)
    ensures Core(ClearActive(s.(output := None, device := device)))
  {
  }

  lemma StartKeeps(s: State, note: SoundNote, now: int)
    requires Core(s) && note.pitch !in s.active
    requires |s.active| < s.limits.maximumPolyphony
    ensures Core(Start(s, note, now).0)
  {
    StartEffect(s, note, now);
    var (s', result) := Start(s, note, now);
    if result == Played {
      StartedKeeps(s, s'.output.value, s'.trace, note, now);
    } else {
      ClearedKeeps(s, s'.device);
    }
  }

  lemma {:induction false} PruneKeepsSuffix(recent: seq<int>, now: int) returns (dropped: nat)
    ensures dropped <= |recent| && PruneRate(recent, now) == recent[dropped..]
    ensures forall i | 0 <= i < dropped :: recent[i] <= now - SECOND
    ensures dropped < |recent| ==> recent[dropped] > now - SECOND
    decreases |recent|
  {
    if recent != [] && recent[0] <= now - SECOND {
      var rest := PruneKeepsSuffix(recent[1..], now);
      dropped := rest + 1;
    } else {
      dropped := 0;
    }
  }

  lemma RetriggerKeeps(s: State, note: SoundNote, now: int)
    requires Inv(s) && note.pitch in s.active
    ensures var (s1, released) := Release(s, note.pitch);
            Inv(s1) && (released ==> Core(Start(s1, note, now).0))
  {
    ReleaseKeeps(s, note.pitch);
    var (s1, released) := Release(s, note.pitch);
    if released {
      assert s1.active.Keys == s.active.Keys - {note.pitch};
      assert |s1.active.Keys| < |s.active.Keys|;
      StartKeeps(s1, note, now);
    }
  }

  lemma StartOpen(s: State, note: SoundNote, now: int)
    requires !s.schedulerClosed
    ensures var s' := Start(s, note, now).0; !s'.schedulerClosed && s'.runtimeClosed == s.runtimeClosed
  {
  }

  lemma AdmitKeeps(s: State, note: SoundNote, now: int)
    requires Inv(s) && !s.schedulerClosed
    ensures Inv(Admit(s, note, now).0)
  {
    var s1 := s.(recent := PruneRate(s.recent, now));
    PrunedKeeps(s, s1.recent);
    if note.pitch in s.active { PlayedAgainKeeps(s1, note, now); } else { PlayedKeeps(s1, note, now); }
  }

  lemma PrunedKeeps(s: State, recent: seq<int>)
    requires Inv(s)
    ensures Inv(s.(recent := recent))
  {
  }

  lemma PlayedAgainKeeps(s: State, note: SoundNote, now: int)
    requires Inv(s) && !s.schedulerClosed && note.pitch in s.active
    ensures var (s', released) := Release(s, note.pitch);
            Inv(s') && (released ==> Inv(Start(s', note, now).0))
  {
    RetriggerKeeps(s, note, now);
    ReleaseKeeps(s, note.pitch);
    StartOpen(Release(s, note.pitch).0, note, now);
  }

  lemma PlayedKeeps(s: State, note: SoundNote, now: int)
    requires Inv(s) && !s.schedulerClosed && note.pitch !in s.active
    ensures |s.active| < s.limits.maximumPolyphony ==> Inv(Start(s, note, now).0)
  {
    if |s.active| < s.limits.maximumPolyphony {
      StartKeeps(s, note, now);
      StartOpen(s, note, now);
    }
  }

  lemma FireKeeps(s: State, callback: Callback)
    requires Inv(s)
    ensures Inv(FireCallback(s, callback))
  {
    var key := callback.key;
    if callback in s.armed + s.late {
      if key in s.active && s.active[key].generation == callback.generation {
        ReleaseKeeps(s, key);
      } else {
        assert callback !in CallbacksOf(s.active);
      }
    }
  }

  lemma ReconcileKeeps(s: State, discovery: Discovery)
    requires Core(s)
    ensures Core(BeginReconcile(s, discovery))
    ensures Plays(BeginReconcile(s, discovery).trace) == Plays(s.trace)
  {
    if discovery.OpenedOutput? {
      var current := if s.output.Some? then s.output.value.id else s.nextOutput + 1;
      var output := Output(s.nextOutput, discovery.endurance);
      var entry := Opened(output.id, discovery.sounding);
      Extended(s.trace, entry, current);
      QuietFrame(s.trace + [entry], output, 1, s.clock, current);
      if output.endurance >= 16 {
        QuietSilences(s.trace + [entry], output, 1, s.clock);
      }
    }
  }

  lemma CommitKeeps(s: State)
    requires Inv(s)
    ensures Inv(CommitTransition(s))
    ensures Plays(CommitTransition(s).trace) == Plays(s.trace)
  {
    if s.pending != Idle && !s.runtimeClosed && s.output.Some? {
      PanicKeeps(s.(pending := Idle), Watched(s));
    }
  }

  lemma WriteKeeps(s: State, note: Note, now: int, cancelled: bool)
    requires Inv(s)
    ensures Inv(WriteNote(s, note, now, cancelled).0)
  {
    if ValidNote(note) && !cancelled && !s.schedulerClosed {
      AdmitKeeps(s.(clock := now), note, now);
    }
  }

  lemma CloseKeeps(s: State)
    requires Inv(s)
    ensures Inv(CloseRuntime(s)) && Inv(CloseScheduler(s))
  {
    if !s.schedulerClosed {
      PanicKeeps(s.(runtimeClosed := true, schedulerClosed := true), 0);
      PanicKeeps(s.(schedulerClosed := true), 0);
    }
  }

  lemma StepKeeps(s: State, event: Event)
    requires Inv(s)
    ensures Inv(Step(s, event))
  {
    match event {
      case Write(note, now, cancelled) => WriteKeeps(s, note, now, cancelled);
      case Fire(callback) => FireKeeps(s, callback);
      case Forget(_) =>
      case Panic => PanicKeeps(s, 0);
      case Close => CloseKeeps(s);
      case SchedulerPanic => PanicKeeps(s, 0);
      case SchedulerClose => CloseKeeps(s);
      case Reconcile(discovery) => ReconcileKeeps(s, discovery);
      case Commit => CommitKeeps(s);
      case StopManager =>
    }
  }

  // --------------------------------------------------------------- all runs

  lemma {:induction false} RunKeeps(s: State, events: seq<Event>)
    requires Inv(s)
    ensures Inv(Run(s, events))
    decreases |events|
  {
    if events != [] {
      StepKeeps(s, events[0]);
      RunKeeps(Step(s, events[0]), events[1..]);
    }
  }

  // In every interleaving of notes, timers, panics, shutdown, send failures
  // and device transitions, a connected output plays exactly the active
  // notes, exactly those have a live timer of their own generation, and their
  // number is bounded.
  lemma RunsOwnTheirNotes(limits: Limits, clock: int, events: seq<Event>)
    ensures var s := Run(Initial(limits, clock), events);
            && (s.output.Some? ==> Sounding(s.trace, s.output.value.id) == s.active.Keys)
            && (forall key | key in s.active :: Callback(key, s.active[key].generation) in s.armed)
            && (forall callback | callback in s.armed ::
                  callback.key in s.active && s.active[callback.key].generation == callback.generation)
            && |s.active| <= limits.maximumPolyphony
  {
    RunKeeps(Initial(limits, clock), events);
    LimitsFixed(Initial(limits, clock), events);
  }

  lemma ReleaseLimits(s: State, key: NoteKey)
    requires key in s.active
    ensures Release(s, key).0.limits == s.limits
  {
  }

  lemma StartLimits(s: State, note: SoundNote, now: int)
    ensures Start(s, note, now).0.limits == s.limits
  {
  }

  lemma AdmitLimits(s: State, note: SoundNote, now: int)
    ensures Admit(s, note, now).0.limits == s.limits
  {
    var s1 := s.(recent := PruneRate(s.recent, now));
    if note.pitch in s.active {
      ReleaseLimits(s1, note.pitch);
      StartLimits(Release(s1, note.pitch).0, note, now);
    } else {
      StartLimits(s1, note, now);
    }
  }

  lemma FireLimits(s: State, callback: Callback)
    ensures FireCallback(s, callback).limits == s.limits
  {
    if callback.key in s.active { ReleaseLimits(s, callback.key); }
  }

  lemma WriteLimits(s: State, note: Note, now: int, cancelled: bool)
    ensures WriteNote(s, note, now, cancelled).0.limits == s.limits
  {
    if ValidNote(note) { AdmitLimits(s.(clock := now), note, now); }
  }

  lemma StepLimits(s: State, event: Event)
    ensures Step(s, event).limits == s.limits
  {
    match event {
      case Write(note, now, cancelled) => WriteLimits(s, note, now, cancelled);
      case Fire(callback) => FireLimits(s, callback);
      case _ =>
    }
  }

  lemma {:induction false} LimitsFixed(s: State, events: seq<Event>)
    ensures Run(s, events).limits == s.limits
    decreases |events|
  {
    if events != [] {
      StepLimits(s, events[0]);
      LimitsFixed(Step(s, events[0]), events[1..]);
    }
  }

  // Note On and Note Off of a key strictly alternate on every output of every
  // run: no Note On while the key sounds, no Note Off while it is silent.
  lemma NotesAlternate(limits: Limits, clock: int, events: seq<Event>, i: nat)
    requires i < |Run(Initial(limits, clock), events).trace|
    ensures var trace := Run(Initial(limits, clock), events).trace;
            Fits(trace[..i], trace[i])
  {
    RunKeeps(Initial(limits, clock), events);
    AlternatesAt(Run(Initial(limits, clock), events).trace, i);
  }

  lemma {:induction false} AlternatesAt(trace: seq<Entry>, i: nat)
    requires Alternates(trace) && i < |trace|
    ensures Fits(trace[..i], trace[i])
    decreases |trace|
  {
    var init := trace[..|trace| - 1];
    if i < |init| {
      AlternatesAt(init, i);
      assert init[..i] == trace[..i];
    }
  }

  // A timer that was stopped and fires anyway ends nothing and sends nothing.
  lemma LateTimerIsHarmless(s: State, callback: Callback)
    requires Inv(s) && callback in s.late
    ensures FireCallback(s, callback) == s.(late := s.late - {callback})
  {
    assert callback !in CallbacksOf(s.active);
  }

  // ---------------------------------------------------------------- shutdown

  lemma ClosedStep(s: State, event: Event)
    requires Inv(s) && s.schedulerClosed
    ensures var s' := Step(s, event);
            s'.schedulerClosed && Plays(s'.trace) == Plays(s.trace)
  {
    match event {
      case Panic => PanicKeeps(s, 0);
      case SchedulerPanic => PanicKeeps(s, 0);
      case Reconcile(discovery) => ReconcileKeeps(s, discovery);
      case Commit =>
        CommitKeeps(s);
        if s.pending != Idle && s.output.Some? { PanicKeeps(s.(pending := Idle), 0); }
      case _ =>
    }
  }

  // After Close no Note On is ever accepted again, nothing is active and the
  // connected output, whichever it is, stays silent.
  lemma {:induction false} ClosedForGood(s: State, events: seq<Event>)
    requires Inv(s) && s.schedulerClosed
    ensures var s' := Run(s, events);
            && s'.schedulerClosed && s'.active == map[]
            && Plays(s'.trace) == Plays(s.trace)
            && (s'.output.Some? ==> Sounding(s'.trace, s'.output.value.id) == {})
    decreases |events|
  {
    if events != [] {
      StepKeeps(s, events[0]);
      ClosedStep(s, events[0]);
      ClosedForGood(Step(s, events[0]), events[1..]);
    }
  }

  // Close itself leaves a connected output silent.
  lemma CloseSilences(s: State)
    requires Inv(s)
    ensures var s' := CloseRuntime(s);
            && Inv(s') && s'.schedulerClosed && s'.runtimeClosed
            && (s'.output.Some? ==> Sounding(s'.trace, s'.output.value.id) == {})
  {
    StepKeeps(s, Close);
  }

  // The order the application shuts down in: the runtime is closed before the
  // manager stops, so the output it closes without a panic is already silent,
  // whatever happens in between.
  lemma StopAfterCloseIsSilent(s: State, events: seq<Event>)
    requires Inv(s)
    ensures var s' := Run(CloseRuntime(s), events);
            s'.output.Some? ==> Sounding(Stop(s').trace, s'.output.value.id) == {}
  {
    CloseSilences(s);
    ClosedForGood(CloseRuntime(s), events);
  }

  // A device transition never leaves a note hanging on the output it
  // replaces, unless that output fails during the panic.
  lemma ReplacedOutputIsSilent(s: State)
    requires Inv(s) && s.pending != Idle && !s.runtimeClosed
    requires s.output.Some? && s.output.value.endurance >= 16
    ensures Sounding(CommitTransition(s).trace, s.output.value.id) == {}
    ensures CommitTransition(s).output.None? || CommitTransition(s).output.value.id != s.output.value.id
  {
    PanicKeeps(s.(pending := Idle), 0);
  }

  // That order is needed: stopping the manager leaves its output silent if
  // and only if no note was active.
  lemma StopIsSilentExactlyWhenIdle(s: State)
    requires Inv(s) && s.pending == Idle && s.output.Some?
    ensures Sounding(Stop(s).trace, s.output.value.id) == {} <==> s.active == map[]
  {
    assert s.active == map[] <==> s.active.Keys == {};
  }

  // --------------------------------------------------------- retired outputs

  // The output was opened before and is neither in use nor about to be.
  predicate Retired(s: State, id: nat) {
    && id < s.nextOutput
    && (s.output.Some? ==> s.output.value.id != id)
    && (s.pending.Connecting? ==> s.pending.output.id != id)
  }

  // The trace has grown by entries of other outputs only.
  ghost predicate SilentAbout(before: seq<Entry>, after: seq<Entry>, id: nat) {
    && |before| <= |after| && after[..|before|] == before
    && forall i | |before| <= i < |after| :: after[i].output != id
  }

  lemma SilentAboutAppend(before: seq<Entry>, after: seq<Entry>, entry: Entry, id: nat)
    requires SilentAbout(before, after, id) && entry.output != id
    ensures SilentAbout(before, after + [entry], id)
  {
    assert (after + [entry])[..|before|] == after[..|before|];
  }

  lemma SilentAboutChains(a: seq<Entry>, b: seq<Entry>, c: seq<Entry>, id: nat)
    requires SilentAbout(a, b, id) && SilentAbout(b, c, id)
    ensures SilentAbout(a, c, id)
  {
    assert c[..|a|] == c[..|b|][..|a|];
    forall i | |a| <= i < |c| ensures c[i].output != id {
      if i < |b| { assert c[..|b|][i] == b[i]; }
    }
  }

  lemma {:induction false} QuietIsSilentAbout(trace: seq<Entry>, output: Output, channel: nat, at: int, id: nat)
    requires output.id != id
    ensures SilentAbout(trace, QuietTrace(trace, output, channel, at), id)
    decreases 17 - channel
  {
    if channel <= 16 && output.endurance != 0 {
      var grown := trace + [Accepted(output.id, ChannelOff(channel), at)];
      QuietIsSilentAbout(grown, output.(endurance := output.endurance - 1), channel + 1, at, id);
      SilentAboutAppend(trace, trace, Accepted(output.id, ChannelOff(channel), at), id);
      SilentAboutChains(trace, grown, QuietTrace(grown, output.(endurance := output.endurance - 1), channel + 1, at), id);
    }
  }

  // The output stays retired and hears nothing.
  ghost predicate Ignores(s: State, s': State, id: nat) {
    Retired(s', id) && SilentAbout(s.trace, s'.trace, id)
  }

  lemma SendIgnores(s: State, command: Command, id: nat)
    requires Retired(s, id)
    ensures Ignores(s, Send(s, command).0, id)
  {
    if s.output.Some? { SilentAboutAppend(s.trace, s.trace, Accepted(s.output.value.id, command, s.clock), id); }
  }

  lemma PanicIgnores(s: State, id: nat)
    requires Retired(s, id)
    ensures Ignores(s, PanicLocked(s), id)
  {
    if s.output.Some? { QuietIsSilentAbout(s.trace, s.output.value, 1, s.clock, id); }
  }

  lemma ReleaseIgnores(s: State, key: NoteKey, id: nat)
    requires Retired(s, id) && key in s.active
    ensures Ignores(s, Release(s, key).0, id)
  {
    var callback := Callback(key, s.active[key].generation);
    var s1 := s.(active := s.active - {key}, armed := s.armed - {callback}, late := s.late + {callback});
    SendIgnores(s1, Off(key), id);
    var s2 := Send(s1, Off(key)).0;
    SendIgnores(s2, ChannelOff(key.channel), id);
    SilentAboutChains(s.trace, s2.trace, Send(s2, ChannelOff(key.channel)).0.trace, id);
  }

  lemma StartIgnores(s: State, note: SoundNote, now: int, id: nat)
    requires Retired(s, id)
    ensures Ignores(s, Start(s, note, now).0, id)
  {
    SendIgnores(s, On(note.pitch, note.velocity), id);
    StartShape(s, note, now);
  }

  lemma AdmitIgnores(s: State, note: SoundNote, now: int, id: nat)
    requires Retired(s, id)
    ensures Ignores(s, Admit(s, note, now).0, id)
  {
    var s1 := s.(recent := PruneRate(s.recent, now));
    if note.pitch in s.active {
      ReleaseIgnores(s1, note.pitch, id);
      var s2 := Release(s1, note.pitch).0;
      StartIgnores(s2, note, now, id);
      SilentAboutChains(s.trace, s2.trace, Start(s2, note, now).0.trace, id);
    } else {
      StartIgnores(s1, note, now, id);
    }
  }

  lemma ReconcileIgnores(s: State, discovery: Discovery, id: nat)
    requires Retired(s, id)
    ensures Ignores(s, BeginReconcile(s, discovery), id)
  {
    if discovery.OpenedOutput? {
      var output := Output(s.nextOutput, discovery.endurance);
      var entry := Opened(output.id, discovery.sounding);
      SilentAboutAppend(s.trace, s.trace, entry, id);
      QuietIsSilentAbout(s.trace + [entry], output, 1, s.clock, id);
      SilentAboutChains(s.trace, s.trace + [entry], QuietTrace(s.trace + [entry], output, 1, s.clock), id);
    }
  }

  lemma WriteIgnores(s: State, note: Note, now: int, cancelled: bool, id: nat)
    requires Retired(s, id)
    ensures Ignores(s, WriteNote(s, note, now, cancelled).0, id)
  {
    if ValidNote(note) { AdmitIgnores(s.(clock := now), note, now, id); }
  }

  lemma FireIgnores(s: State, callback: Callback, id: nat)
    requires Retired(s, id)
    ensures Ignores(s, FireCallback(s, callback), id)
  {
    if callback.key in s.active { ReleaseIgnores(s, callback.key, id); }
  }

  lemma StepIgnores(s: State, event: Event, id: nat)
    requires Retired(s, id)
    ensures Ignores(s, Step(s, event), id)
  {
    match event {
      case Write(note, now, cancelled) => WriteIgnores(s, note, now, cancelled, id);
      case Fire(callback) => FireIgnores(s, callback, id);
      case Panic => PanicIgnores(s, id);
      case Close => CloseIgnores(s, id);
      case SchedulerPanic => PanicIgnores(s, id);
      case SchedulerClose => CloseIgnores(s, id);
      case Reconcile(discovery) => ReconcileIgnores(s, discovery, id);
      case Commit => CommitIgnores(s, id);
      case _ =>
    }
  }

  lemma CloseIgnores(s: State, id: nat)
    requires Retired(s, id)
    ensures Ignores(s, CloseRuntime(s), id) && Ignores(s, CloseScheduler(s), id)
  {
    PanicIgnores(s.(runtimeClosed := true, schedulerClosed := true), id);
    PanicIgnores(s.(schedulerClosed := true), id);
  }

  lemma CommitIgnores(s: State, id: nat)
    requires Retired(s, id)
    ensures Ignores(s, CommitTransition(s), id)
  {
    PanicIgnores(s.(pending := Idle), id);
  }

  lemma {:induction false} SilentAboutSounding(before: seq<Entry>, after: seq<Entry>, id: nat)
    requires SilentAbout(before, after, id)
    ensures Sounding(after, id) == Sounding(before, id)
    decreases |after|
  {
    if |before| < |after| {
      var init := after[..|after| - 1];
      assert init[..|before|] == after[..|before|];
      SilentAboutSounding(before, init, id);
    } else {
      assert after == before;
    }
  }

  // An output that was replaced is never sent another message, in any run,
  // and keeps playing what it played.
  lemma {:induction false} RetiredForGood(s: State, events: seq<Event>, id: nat)
    requires Retired(s, id)
    ensures Ignores(s, Run(s, events), id)
    ensures Sounding(Run(s, events).trace, id) == Sounding(s.trace, id)
    decreases |events|
  {
    if events != [] {
      var s' := Step(s, events[0]);
      StepIgnores(s, events[0], id);
      RetiredForGood(s', events[1..], id);
      SilentAboutChains(s.trace, s'.trace, Run(s, events).trace, id);
    }
    SilentAboutSounding(s.trace, Run(s, events).trace, id);
  }

  // A device transition silences the output it replaces for good, unless that
  // output fails during the panic.
  lemma ReplacedOutputStaysSilent(s: State, events: seq<Event>)
    requires Inv(s) && s.pending != Idle && !s.runtimeClosed
    requires s.output.Some? && s.output.value.endurance >= 16
    ensures var s' := Run(CommitTransition(s), events);
            Retired(s', s.output.value.id) && Sounding(s'.trace, s.output.value.id) == {}
  {
    ReplacedOutputIsSilent(s);
    PanicKeeps(s.(pending := Idle), 0);
    RetiredForGood(CommitTransition(s), events, s.output.value.id);
  }

  // ------------------------------------------------------------ hanging notes

  // A device is found, connected, and asked for one note.
  const FOUND: Event := Reconcile(OpenedOutput(Device(1, "synth"), 20, {}))
  const NOTED: Event := Write(Note(Pitch(1, 60), 64, SECOND), 0, false)

  lemma DeviceConnects(s: State)
    requires s == Initial(Limits(1, 1, 0), 0)
    ensures var after := Step(Step(s, FOUND), Commit);
            && after.output == Some(Output(0, 4)) && after.pending == Idle && !after.schedulerClosed
            && after.active == map[] && after.recent == [] && after.limits == s.limits
  {
  }

  lemma NotePlays(s: State)
    requires s.output == Some(Output(0, 4)) && s.pending == Idle && !s.schedulerClosed
    requires s.active == map[] && s.recent == [] && s.limits == Limits(1, 1, 0)
    ensures var after := Step(s, NOTED);
            Pitch(1, 60) in after.active && after.output == Some(Output(0, 3)) && after.pending == Idle
  {
  }

  lemma RunThree(s: State, a: Event, b: Event, c: Event)
    ensures Run(s, [a, b, c]) == Step(Step(Step(s, a), b), c)
  {
    assert [a, b, c][1..] == [b, c] && [b, c][1..] == [c] && [c][1..] == [];
    assert Run(Step(s, a), [b, c]) == Run(Step(Step(s, a), b), [c]);
    assert Run(Step(Step(s, a), b), [c]) == Run(Step(Step(Step(s, a), b), c), []);
  }

  // Stopping the manager without closing the runtime leaves a note hanging in
  // a run of three steps.
  lemma StopAloneLeavesANote()
    ensures var s := Run(Initial(Limits(1, 1, 0), 0), [FOUND, Commit, NOTED]);
            s.pending == Idle && s.output.Some? && Sounding(Stop(s).trace, s.output.value.id) != {}
  {
    var start := Initial(Limits(1, 1, 0), 0);
    DeviceConnects(start);
    NotePlays(Step(Step(start, FOUND), Commit));
    RunThree(start, FOUND, Commit, NOTED);
    RunKeeps(start, [FOUND, Commit, NOTED]);
    StopIsSilentExactlyWhenIdle(Run(start, [FOUND, Commit, NOTED]));
  }
}
