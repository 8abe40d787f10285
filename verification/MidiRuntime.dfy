// The MIDI manager, scheduler and runtime as the objects of the program. Each
// gated operation is proved to be the step of MidiProtocol it stands for, so
// every property of the runs holds of these objects.
module MidiRuntime {
  import opened Common
  import opened MidiMessages
  import opened MidiProtocol

  // Discovers and owns one output. `output` carries the endurance of the
  // device, which is the environment's choice.
  class Manager {
    var output: Option<Output>
    var device: Device
    var stopped: bool
    var pending: Pending
    var nextOutput: nat
    ghost var trace: seq<Entry>
    ghost var clock: int

    constructor (ghost clock: int)
      ensures output == None && device == NO_DEVICE && !stopped && pending == Idle && nextOutput == 0
      ensures trace == [] && this.clock == clock
    {
      output, device, stopped, pending, nextOutput := None, NO_DEVICE, false, Idle, 0;
      trace, this.clock := [], clock;
    }

    // Forwards a message, or marks a failed output disconnected.
    method Send(message: seq<Byte>) returns (result: SendResult)
      modifies this`output, this`device, this`trace
      ensures old(output).None? ==>
                result == Unavailable && output == None && device == old(device) && trace == old(trace)
      ensures old(output).Some? && old(output).value.endurance == 0 ==>
                result == Failed && output == None && device == NO_DEVICE && trace == old(trace)
      ensures old(output).Some? && old(output).value.endurance > 0 ==>
                && result == Sent && device == old(device)
                && output == Some(Output(old(output).value.id, old(output).value.endurance - 1))
                && trace == old(trace) + [Accepted(old(output).value.id, Understand(message), clock)]
    {
      match output {
        case None => result := Unavailable;
        case Some(current) =>
          if current.endurance == 0 {
            output, device := None, NO_DEVICE;
            result := Failed;
          } else {
            output := Some(current.(endurance := current.endurance - 1));
            trace := trace + [Accepted(current.id, Understand(message), clock)];
            result := Sent;
          }
      }
    }

    // All Notes Off on every channel of an output nobody else uses yet.
    method ResetOutput(newcomer: Output) returns (remaining: Output, ok: bool)
      modifies this`trace
      ensures ok <==> newcomer.endurance >= 16
      ensures ok ==> remaining == newcomer.(endurance := newcomer.endurance - 16)
      ensures trace == QuietTrace(old(trace), newcomer, 1, clock)
    {
      remaining, ok := newcomer, true;
      var channel := 1;
      while channel <= 16
        invariant 1 <= channel <= 17 && ok
        invariant newcomer.endurance >= channel - 1
        invariant remaining == newcomer.(endurance := newcomer.endurance - (channel - 1))
        invariant QuietTrace(trace, remaining, channel, clock) == QuietTrace(old(trace), newcomer, 1, clock)
      {
        BuildersAreUnderstood(channel, 0, 0);
        var message := AllNotesOff(channel).value;
        if remaining.endurance == 0 {
          ok := false;
          return;
        }
        trace := trace + [Accepted(remaining.id, Understand(message), clock)];
        remaining := remaining.(endurance := remaining.endurance - 1);
        channel := channel + 1;
      }
    }

    // Opens an output, with whatever already sounds on it, and resets it.
    method OpenOutput(endurance: nat, ghost sounding: set<NoteKey>) returns (remaining: Output, ok: bool)
      modifies this`nextOutput, this`trace
      ensures nextOutput == old(nextOutput) + 1
      ensures var output := Output(old(nextOutput), endurance);
              && trace == QuietTrace(old(trace) + [Opened(output.id, sounding)], output, 1, clock)
              && (ok <==> endurance >= 16)
              && (ok ==> remaining == output.(endurance := endurance - 16))
    {
      var output := Output(nextOutput, endurance);
      nextOutput := nextOutput + 1;
      trace := trace + [Opened(output.id, sounding)];
      remaining, ok := ResetOutput(output);
    }

    method ReplaceOutputCoordinated(next: Option<Output>, selected: Device)
      modifies this`output, this`device
      ensures output == next && device == selected
    {
      output, device := next, selected;
    }
  }

  // Emits Note On immediately and owns every Note Off.
  class Scheduler {
    const manager: Manager
    const limits: Limits
    var active: map<NoteKey, ActiveNote>
    var recent: seq<int>
    var nextGeneration: nat
    var closed: bool
    ghost var armed: set<Callback>
    ghost var late: set<Callback>

    constructor (manager: Manager, limits: Limits)
      ensures this.manager == manager && this.limits == limits
      ensures active == map[] && recent == [] && nextGeneration == 0 && !closed
      ensures armed == {} && late == {}
    {
      this.manager, this.limits := manager, limits;
      active, recent, nextGeneration, closed := map[], [], 0, false;
      armed, late := {}, {};
    }

    // The protocol state of an open runtime.
    ghost function View(): (s: State)
      reads this, manager
    {
      State(limits, active, recent, nextGeneration, closed,
            manager.output, manager.device, manager.stopped, false,
            manager.pending, manager.nextOutput, manager.clock, armed, late, manager.trace)
    }

    method ClearActiveLocked()
      modifies this
      ensures View() == ClearActive(old(View()))
    {
      armed, late := armed - CallbacksOf(active), late + CallbacksOf(active);
      active := map[];
    }

    method SendMessage(message: seq<Byte>) returns (result: SendResult)
      modifies this, manager
      ensures (View(), result) == Send(old(View()), Understand(message))
    {
      result := manager.Send(message);
      if result != Sent {
        ClearActiveLocked();
      }
    }

    method PruneRateWindow(now: int)
      modifies this`recent
      ensures recent == PruneRate(old(recent), now)
    {
      var first := 0;
      while first < |recent| && recent[first] <= now - SECOND
        invariant 0 <= first <= |recent|
        invariant PruneRate(recent[first..], now) == PruneRate(recent, now)
      {
        assert recent[first..][1..] == recent[first + 1..];
        first := first + 1;
      }
      recent := recent[first..];
    }

    method PanicLocked() returns (failed: bool)
      modifies this, manager
      ensures View() == MidiProtocol.PanicLocked(old(View()))
      ensures failed <==> old(manager.output).Some? && old(manager.output).value.endurance < 16
    {
      ClearActiveLocked();
      ghost var start := View();
      failed := false;
      var channel := 1;
      while channel <= 16
        invariant 1 <= channel <= 17
        invariant active == map[] && Silence(View(), channel) == Silence(start, 1)
        invariant failed || Troubled(View(), channel) <==> Troubled(start, 1)
      {
        BuildersAreUnderstood(channel, 0, 0);
        var message := AllNotesOff(channel).value;
        SilenceUnrolls(View(), channel);
        var result := SendMessage(message);
        failed := failed || result == Failed;
        channel := channel + 1;
      }
    }

    // The audible part of a retrigger or of an expired timer.
    method ReleaseNote(key: NoteKey) returns (released: bool)
      requires key in active
      modifies this, manager
      ensures (View(), released) == Release(old(View()), key)
    {
      ghost var callback := Callback(key, active[key].generation);
      armed, late := armed - {callback}, late + {callback};
      active := active - {key};
      BuildersAreUnderstood(key.channel, key.note, 0);
      var result := SendMessage(NoteOff(key.channel, key.note).value);
      released := result == Sent;
      if !released {
        result := SendMessage(AllNotesOff(key.channel).value);
      }
    }

    method StartNote(note: SoundNote, now: int) returns (result: WriteResult)
      modifies this, manager
      ensures (View(), result) == Start(old(View()), note, now)
    {
      var key: NoteKey := note.pitch;
      BuildersAreUnderstood(key.channel, key.note, note.velocity);
      var sent := SendMessage(NoteOn(key.channel, key.note, note.velocity).value);
      if sent != Sent {
        return SendFailed;
      }
      recent := recent + [now];
      nextGeneration := nextGeneration + 1;
      armed := armed + {Callback(key, nextGeneration)};
      active := active[key := ActiveNote(now, nextGeneration, now + note.duration)];
      result := Played;
    }

    method Write(note: Note, now: int, cancelled: bool) returns (result: WriteResult)
      modifies this, manager
      ensures (View(), result) == WriteNote(old(View()), note, now, cancelled)
    {
      if !ValidNote(note) { return Invalid; }
      if cancelled { return Cancelled; }
      if closed { return SchedulerClosed; }
      var key: NoteKey := note.pitch;
      manager.clock := now;
      var retrigger := key in active;
      if retrigger && now - active[key].started < limits.minimumRetriggerInterval {
        return RetriggerLimited;
      }
      PruneRateWindow(now);
      if |recent| >= limits.maximumNotesPerSecond { return RateLimited; }
      if !retrigger && |active| >= limits.maximumPolyphony { return PolyphonyLimited; }
      if retrigger {
        var released := ReleaseNote(key);
        if !released { return SendFailed; }
      }
      result := StartNote(note, now);
    }

    // The timer callback.
    method StopNote(key: NoteKey, generation: nat)
      requires Callback(key, generation) in armed + late
      modifies this, manager
      ensures View() == FireCallback(old(View()), Callback(key, generation))
    {
      if key !in active || active[key].generation != generation {
        armed, late := armed - {Callback(key, generation)}, late - {Callback(key, generation)};
        return;
      }
      var _ := ReleaseNote(key);
      late := late - {Callback(key, generation)};
    }

    method CloseCoordinated() returns (failed: bool)
      modifies this, manager
      ensures View() == CloseScheduler(old(View()))
      ensures old(closed) ==> !failed
    {
      if closed { return false; }
      closed := true;
      failed := PanicLocked();
    }
  }

  // The single coordination boundary of notes, timers, device transitions and
  // operator controls.
  class Runtime {
    const manager: Manager
    const scheduler: Scheduler
    var closed: bool

    // Binds an unused manager and scheduler to one gate.
    constructor (manager: Manager, scheduler: Scheduler)
      requires scheduler.manager == manager
      requires scheduler.View() == Initial(scheduler.limits, manager.clock)
      ensures this.manager == manager && this.scheduler == scheduler
      ensures Valid() && View() == Initial(scheduler.limits, manager.clock)
    {
      this.manager, this.scheduler, closed := manager, scheduler, false;
    }

    ghost predicate Valid() {
      scheduler.manager == manager
    }

    ghost function View(): (s: State)
      requires Valid()
      reads this, scheduler, manager
    {
      scheduler.View().(runtimeClosed := closed)
    }

    method Write(note: Note, now: int, cancelled: bool) returns (result: WriteResult)
      requires Valid()
      modifies scheduler, manager
      ensures (View(), result) == WriteNote(old(View()), note, now, cancelled)
    {
      WriteIgnoresRuntime(scheduler.View(), note, now, cancelled, closed);
      result := scheduler.Write(note, now, cancelled);
    }

    // A timer takes the gate, whether or not the runtime is closed.
    method Timer(key: NoteKey, generation: nat)
      requires Valid() && Callback(key, generation) in scheduler.armed + scheduler.late
      modifies scheduler, manager
      ensures View() == FireCallback(old(View()), Callback(key, generation))
    {
      FireIgnoresRuntime(scheduler.View(), Callback(key, generation), closed);
      scheduler.StopNote(key, generation);
    }

    method Panic() returns (rejected: bool, failed: bool)
      requires Valid()
      modifies scheduler, manager
      ensures View() == PanicRuntime(old(View()))
      ensures rejected == closed
    {
      if closed { return true, false; }
      failed := scheduler.PanicLocked();
      rejected := false;
    }

    method Close() returns (failed: bool)
      requires Valid()
      modifies this, scheduler, manager
      ensures View() == CloseRuntime(old(View())) && closed
    {
      if closed { return false; }
      PanicIgnoresRuntime(scheduler.View().(schedulerClosed := true), true);
      closed := true;
      failed := scheduler.CloseCoordinated();
    }

    // Discovery, open and reset, before the gate is taken.
    method BeginReconcile(discovery: Discovery)
      requires Valid()
      modifies manager
      ensures View() == MidiProtocol.BeginReconcile(old(View()), discovery)
    {
      if manager.stopped || manager.pending != Idle { return; }
      match discovery {
        case DiscoveryFailed =>
        case OpenFailed(_) =>
        case NothingSelected =>
          if manager.output.Some? { manager.pending := Disconnecting; }
        case OpenedOutput(selected, endurance, sounding) =>
          if manager.output.Some? && manager.device == selected { return; }
          var remaining, ok := manager.OpenOutput(endurance, sounding);
          if ok { manager.pending := Connecting(remaining, selected); }
      }
    }

    // The gated part of a reconciliation.
    method TransitionCoordinated() returns (panicFailed: bool)
      requires Valid()
      modifies scheduler, manager
      ensures View() == CommitTransition(old(View()))
    {
      panicFailed := false;
      var decided := manager.pending;
      if decided == Idle { return; }
      manager.pending := Idle;
      if closed { return; }
      if manager.output.Some? {
        panicFailed := scheduler.PanicLocked();
      }
      match decided {
        case Connecting(output, selected) => manager.ReplaceOutputCoordinated(Some(output), selected);
        case Disconnecting => manager.ReplaceOutputCoordinated(None, NO_DEVICE);
      }
    }

    // The end of the manager's Run.
    method StopManager()
      requires Valid()
      requires manager.pending == Idle
      modifies manager
      ensures View() == Stop(old(View()))
    {
      manager.stopped := true;
      manager.ReplaceOutputCoordinated(None, NO_DEVICE);
    }
  }

  // ----------------------------------------------------------------- helpers

  // The panic reports a failure: the output fails within the channels left.
  ghost predicate Troubled(s: State, channel: nat)
    requires channel <= 17
  {
    s.output.Some? && s.output.value.endurance < 17 - channel
  }

  // One iteration of the All Notes Off loop.
  lemma SilenceUnrolls(s: State, channel: nat)
    requires 1 <= channel <= 16 && s.active == map[]
    ensures var (s', sent) := Send(s, ChannelOff(channel));
            && s'.active == map[]
            && Silence(s', channel + 1) == Silence(s, channel)
            && (Troubled(s, channel) <==> sent == Failed || Troubled(s', channel + 1))
  {
    assert CallbacksOf(s.active) == {};
  }

  lemma PanicIgnoresRuntime(s: State, shut: bool)
    ensures PanicLocked(s.(runtimeClosed := shut)) == PanicLocked(s).(runtimeClosed := shut)
  {
  }

  lemma SendIgnoresRuntime(s: State, command: Command, shut: bool)
    ensures Send(s.(runtimeClosed := shut), command) ==
            (Send(s, command).0.(runtimeClosed := shut), Send(s, command).1)
  {
  }

  lemma ReleaseIgnoresRuntime(s: State, key: NoteKey, shut: bool)
    requires key in s.active
    ensures Release(s.(runtimeClosed := shut), key) ==
            (Release(s, key).0.(runtimeClosed := shut), Release(s, key).1)
  {
    var callback := Callback(key, s.active[key].generation);
    var s1 := s.(active := s.active - {key},
                 armed := s.armed - {callback},
                 late := s.late + {callback});
    SendIgnoresRuntime(s1, Off(key), shut);
    SendIgnoresRuntime(Send(s1, Off(key)).0, ChannelOff(key.channel), shut);
  }

  lemma StartIgnoresRuntime(s: State, note: SoundNote, now: int, shut: bool)
    ensures Start(s.(runtimeClosed := shut), note, now) ==
            (Start(s, note, now).0.(runtimeClosed := shut), Start(s, note, now).1)
  {
    SendIgnoresRuntime(s, On(note.pitch, note.velocity), shut);
  }

  lemma AdmitIgnoresRuntime(s: State, note: SoundNote, now: int, shut: bool)
    ensures Admit(s.(runtimeClosed := shut), note, now) ==
            (Admit(s, note, now).0.(runtimeClosed := shut), Admit(s, note, now).1)
  {
    var s1 := s.(recent := PruneRate(s.recent, now));
    if note.pitch in s.active {
      ReleaseIgnoresRuntime(s1, note.pitch, shut);
      StartIgnoresRuntime(Release(s1, note.pitch).0, note, now, shut);
    } else {
      StartIgnoresRuntime(s1, note, now, shut);
    }
  }

  lemma WriteIgnoresRuntime(s: State, note: Note, now: int, cancelled: bool, shut: bool)
    ensures var (s', result) := WriteNote(s, note, now, cancelled);
            WriteNote(s.(runtimeClosed := shut), note, now, cancelled) == (s'.(runtimeClosed := shut), result)
  {
    if ValidNote(note) { AdmitIgnoresRuntime(s.(clock := now), note, now, shut); }
  }

  lemma FireIgnoresRuntime(s: State, callback: Callback, shut: bool)
    ensures FireCallback(s.(runtimeClosed := shut), callback) == FireCallback(s, callback).(runtimeClosed := shut)
  {
    if callback.key in s.active { ReleaseIgnoresRuntime(s, callback.key, shut); }
  }
}
