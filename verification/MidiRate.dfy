// The rate and retrigger limits over whole runs of the MIDI protocol, for a
// clock that does not run backwards.
module MidiRate {
  import opened Common
  import opened MidiMessages
  import opened MidiProtocol
  import opened MidiSafety

  // The times at which the notes are written never decrease from `clock` on.
  ghost predicate Forward(clock: int, events: seq<Event>)
    decreases |events|
  {
    events == [] ||
    match events[0]
    case Write(_, now, _) => clock <= now && Forward(now, events[1..])
    case _ => Forward(clock, events[1..])
  }

  ghost predicate InOrder(plays: seq<Play>) {
    forall i, j | 0 <= i < j < |plays| :: plays[i].at <= plays[j].at
  }

  // Any `maximum` + 1 consecutive Note Ons span at least a second.
  ghost predicate Spaced(plays: seq<Play>, maximum: nat) {
    forall i, j | 0 <= i && j == i + maximum && j < |plays| :: plays[i].at + SECOND <= plays[j].at
  }

  // The rate window holds the times of the latest Note Ons, and every earlier
  // Note On is at least a second old.
  ghost predicate Remembers(plays: seq<Play>, recent: seq<int>, clock: int) {
    && |recent| <= |plays|
    && (forall i | 0 <= i < |recent| :: recent[i] == plays[|plays| - |recent| + i].at)
    && (forall i | 0 <= i < |plays| - |recent| :: plays[i].at <= clock - SECOND)
    && (forall i | 0 <= i < |plays| :: plays[i].at <= clock)
  }

  // The time of the latest Note On of a key.
  function LastPlay(plays: seq<Play>, key: NoteKey): (at: Option<int>) {
    if plays == [] then None
    else if plays[|plays| - 1].key == key then Some(plays[|plays| - 1].at)
    else LastPlay(plays[..|plays| - 1], key)
  }

  ghost predicate Dated(active: map<NoteKey, ActiveNote>, plays: seq<Play>) {
    forall key | key in active :: LastPlay(plays, key) == Some(active[key].started)
  }

  ghost predicate Rated(s: State) {
    var plays := Plays(s.trace);
    && InOrder(plays) && Spaced(plays, s.limits.maximumNotesPerSecond)
    && Remembers(plays, s.recent, s.clock)
    && Dated(s.active, plays)
  }

  // ------------------------------------------------------------ step effects

  // Every step other than a note leaves the Note Ons, the window and the
  // clock alone and adds no active note.
  ghost predicate Passive(s: State, s': State) {
    && Plays(s'.trace) == Plays(s.trace)
    && s'.recent == s.recent && s'.clock == s.clock && s'.limits == s.limits
    && (forall key | key in s'.active :: key in s.active && s'.active[key] == s.active[key])
  }

  lemma PassiveKeeps(s: State, s': State)
    requires Rated(s) && Passive(s, s')
    ensures Rated(s')
  {
  }

  lemma PanicIsPassive(s: State)
    requires Core(s)
    ensures Passive(s, PanicLocked(s))
  {
    PanicKeeps(s, 0);
  }

  lemma FireIsPassive(s: State, callback: Callback)
    requires Inv(s)
    ensures Passive(s, FireCallback(s, callback))
  {
    if callback.key in s.active { ReleaseKeeps(s, callback.key); }
  }

  lemma CommitIsPassive(s: State)
    requires Inv(s)
    ensures Passive(s, CommitTransition(s))
  {
    if s.pending != Idle && !s.runtimeClosed && s.output.Some? {
      PanicIsPassive(s.(pending := Idle));
    }
  }

  lemma OtherStepsArePassive(s: State, event: Event)
    requires Inv(s) && !event.Write?
    ensures Passive(s, Step(s, event))
  {
    match event {
      case Fire(callback) => FireIsPassive(s, callback);
      case Panic => PanicIsPassive(s);
      case Close => PanicIsPassive(s.(runtimeClosed := true, schedulerClosed := true));
      case SchedulerPanic => PanicIsPassive(s);
      case SchedulerClose => PanicIsPassive(s.(schedulerClosed := true));
      case Reconcile(discovery) => ReconcileKeeps(s, discovery);
      case Commit => CommitIsPassive(s);
      case _ =>
    }
  }

  lemma PruneRemembers(plays: seq<Play>, recent: seq<int>, clock: int, now: int)
    requires Remembers(plays, recent, clock) && clock <= now
    ensures Remembers(plays, PruneRate(recent, now), now)
  {
    var dropped := PruneKeepsSuffix(recent, now);
    var kept := recent[dropped..];
    var base := |plays| - |recent|;
    forall i | 0 <= i < |plays| - |kept|
      ensures plays[i].at <= now - SECOND
    {
      if i >= base { assert recent[i - base] == plays[i].at; }
    }
  }

  // A Note On admitted at `now` keeps the spacing, because the window that
  // was not full holds every Note On of the last second.
  lemma PlayKeepsSpacing(plays: seq<Play>, recent: seq<int>, now: int, maximum: nat, key: NoteKey)
    requires InOrder(plays) && Spaced(plays, maximum) && Remembers(plays, recent, now)
    requires |recent| < maximum
    ensures var plays' := plays + [Play(key, now)];
            && InOrder(plays') && Spaced(plays', maximum) && Remembers(plays', recent + [now], now)
  {
    var plays' := plays + [Play(key, now)];
    forall i, j | 0 <= i && j == i + maximum && j < |plays'|
      ensures plays'[i].at + SECOND <= plays'[j].at
    {
      if j < |plays| { assert plays[i].at + SECOND <= plays[j].at; } else { assert i < |plays| - |recent|; }
    }
  }

  lemma PlayDates(active: map<NoteKey, ActiveNote>, active': map<NoteKey, ActiveNote>,
                  plays: seq<Play>, key: NoteKey, now: int)
    requires Dated(active, plays)
    requires key in active' && active'[key].started == now
    requires forall other | other in active' && other != key ::
               other in active && active'[other] == active[other]
    ensures Dated(active', plays + [Play(key, now)])
  {
    assert (plays + [Play(key, now)])[..|plays|] == plays;
  }

  lemma StartRated(s: State, note: SoundNote, now: int)
    requires Core(s) && Rated(s) && note.pitch !in s.active && s.clock == now
    requires |s.recent| < s.limits.maximumNotesPerSecond
    ensures Rated(Start(s, note, now).0)
  {
    StartEffect(s, note, now);
    var (s', result) := Start(s, note, now);
    var plays := Plays(s.trace);
    if result == Played {
      PlayKeepsSpacing(plays, s.recent, now, s.limits.maximumNotesPerSecond, note.pitch);
      PlayDates(s.active, s'.active, plays, note.pitch, now);
    }
  }

  lemma AdmitRated(s: State, note: SoundNote, now: int)
    requires Inv(s) && Rated(s) && s.clock == now && !s.schedulerClosed
    ensures Rated(Admit(s, note, now).0)
  {
    var s1 := s.(recent := PruneRate(s.recent, now));
    PruneRemembers(Plays(s.trace), s.recent, s.clock, now);
    assert Rated(s1);
    if |s1.recent| < s.limits.maximumNotesPerSecond {
      if note.pitch in s.active {
        ReleaseKeeps(s1, note.pitch);
        PassiveKeeps(s1, Release(s1, note.pitch).0);
        var (s2, released) := Release(s1, note.pitch);
        if released { StartRated(s2, note, now); }
      } else {
        StartRated(s1, note, now);
      }
    }
  }

  lemma WriteRated(s: State, note: Note, now: int, cancelled: bool)
    requires Inv(s) && Rated(s) && s.clock <= now
    ensures var s' := WriteNote(s, note, now, cancelled).0; Rated(s') && s'.clock <= now
  {
    if ValidNote(note) && !cancelled && !s.schedulerClosed {
      var ticked := s.(clock := now);
      assert Rated(ticked);
      AdmitRated(ticked, note, now);
      AdmitClock(ticked, note, now);
    }
  }

  lemma StepRated(s: State, event: Event)
    requires Inv(s) && Rated(s)
    requires event.Write? ==> s.clock <= event.now
    ensures Rated(Step(s, event))
    ensures Step(s, event).clock <= if event.Write? then event.now else s.clock
  {
    if event.Write? {
      WriteRated(s, event.note, event.now, event.cancelled);
    } else {
      OtherStepsArePassive(s, event);
      PassiveKeeps(s, Step(s, event));
    }
  }

  lemma StartClock(s: State, note: SoundNote, now: int)
    ensures Start(s, note, now).0.clock == s.clock
  {
  }

  lemma ReleaseClock(s: State, key: NoteKey)
    requires key in s.active
    ensures Release(s, key).0.clock == s.clock
  {
  }

  lemma AdmitClock(s: State, note: SoundNote, now: int)
    ensures Admit(s, note, now).0.clock == s.clock
  {
    var s1 := s.(recent := PruneRate(s.recent, now));
    if note.pitch in s.active {
      ReleaseClock(s1, note.pitch);
      StartClock(Release(s1, note.pitch).0, note, now);
    } else {
      StartClock(s1, note, now);
    }
  }

  // --------------------------------------------------------------- all runs

  lemma {:induction false} RunRated(s: State, events: seq<Event>, clock: int)
    requires Inv(s) && Rated(s) && s.clock <= clock && Forward(clock, events)
    ensures Rated(Run(s, events))
    decreases |events|
  {
    if events != [] {
      StepKeeps(s, events[0]);
      StepRated(s, events[0]);
      var clock' := if events[0].Write? then events[0].now else clock;
      RunRated(Step(s, events[0]), events[1..], clock');
    }
  }

  // The Note Ons accepted in the second that ends at `t`.
  function Window(plays: seq<Play>, t: int): (indices: set<nat>) {
    set i: nat | i < |plays| && t - SECOND < plays[i].at <= t
  }

  lemma SpacedWindow(plays: seq<Play>, maximum: nat, t: int)
    requires InOrder(plays) && Spaced(plays, maximum)
    ensures |Window(plays, t)| <= maximum
  {
    var window := Window(plays, t);
    if window != {} {
      var low := Least(window);
      forall j | low + maximum <= j < |plays|
        ensures plays[low].at + SECOND <= plays[j].at
      {
        assert plays[low].at + SECOND <= plays[low + maximum].at;
      }
      assert forall i | i in window :: low <= i < low + maximum;
      SubsetSize(window, Interval(low, maximum));
    }
  }

  // Every one-second window of every run contains at most
  // maximumNotesPerSecond accepted Note Ons, across panics, send failures and
  // device changes.
  lemma RunsRespectTheRate(limits: Limits, clock: int, events: seq<Event>, t: int)
    requires Forward(clock, events)
    ensures |Window(Plays(Run(Initial(limits, clock), events).trace), t)| <= limits.maximumNotesPerSecond
  {
    var start := Initial(limits, clock);
    RunRated(start, events, clock);
    LimitsFixed(start, events);
    SpacedWindow(Plays(Run(start, events).trace), limits.maximumNotesPerSecond, t);
  }

  // In every run, a note that is written while its key still sounds is played
  // only if the previous Note On of that key is at least the minimum interval
  // old.
  lemma RunsRespectTheRetriggerInterval(limits: Limits, clock: int, events: seq<Event>, note: Note, now: int)
    requires Forward(clock, events)
    ensures var s := Run(Initial(limits, clock), events);
            && s.output.Some?
            && note.pitch in Sounding(s.trace, s.output.value.id)
            && WriteNote(s, note, now, false).1 == Played
            ==> var previous := LastPlay(Plays(s.trace), note.pitch);
                previous.Some? && now - previous.value >= limits.minimumRetriggerInterval
  {
    var start := Initial(limits, clock);
    RunKeeps(start, events);
    RunRated(start, events, clock);
    LimitsFixed(start, events);
  }
}
