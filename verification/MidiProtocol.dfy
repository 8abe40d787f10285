// The note-ownership protocol of the MIDI runtime as a transition system.
//
// One token gate serialises notes, timer callbacks, panics, shutdown and
// device transitions, so every gated operation is one step of the system. The
// unguarded part of a device reconciliation (discovery, open and reset of an
// output nobody else can see yet) is a step of its own.
//
// Environment. An opened output accepts `endurance` messages and then fails;
// it is disconnected at its first failure and never used again, so the number
// fixed when it is opened stands for every possible pattern of send failures.
// `trace` records what each output accepted. A timer that was stopped may
// already have fired and be waiting for the gate: it moves from `armed` to
// `late`, from where its callback may still run.
module MidiProtocol {
  import opened Common
  import opened MidiMessages

  const SECOND: int := 1_000_000_000

  datatype Limits = Limits(
    maximumNotesPerSecond: nat,
    maximumPolyphony: nat,
    minimumRetriggerInterval: int)

  datatype Device = Device(number: int, name: string)

  const NO_DEVICE := Device(0, "")

  datatype Output = Output(id: nat, endurance: nat)

  // A sounding note and when its timer goes off.
  datatype ActiveNote = ActiveNote(started: int, generation: nat, due: int)

  datatype Callback = Callback(key: NoteKey, generation: nat)

  // A reconciliation that has decided what to do and waits for the gate.
  datatype Pending = Idle | Disconnecting | Connecting(output: Output, device: Device)

  datatype Entry =
    | Opened(output: nat, sounding: set<NoteKey>)  // what the device was already playing
    | Accepted(output: nat, command: Command, at: int)

  datatype State = State(
    limits: Limits,
    // scheduler
    active: map<NoteKey, ActiveNote>,
    recent: seq<int>,
    nextGeneration: nat,
    schedulerClosed: bool,
    // manager
    output: Option<Output>,
    device: Device,
    stopped: bool,
    // runtime
    runtimeClosed: bool,
    // environment
    pending: Pending,
    nextOutput: nat,
    clock: int,
    armed: set<Callback>,
    late: set<Callback>,
    trace: seq<Entry>)

  datatype SendResult = Sent | Unavailable | Failed

  datatype WriteResult =
    | Played | Invalid | Cancelled | SchedulerClosed
    | RetriggerLimited | RateLimited | PolyphonyLimited | SendFailed

  datatype Note = Note(pitch: Pitch, velocity: int, duration: int)

  type SoundNote = note: Note | ValidNote(note) witness Note(Pitch(1, 0), 1, 1)

  datatype Discovery =
    | DiscoveryFailed
    | NothingSelected
    | OpenFailed(device: Device)
    | OpenedOutput(device: Device, endurance: nat, sounding: set<NoteKey>)

  datatype Event =
    | Write(note: Note, now: int, cancelled: bool)
    | Fire(callback: Callback)
    | Forget(callback: Callback)
    | Panic
    | Close
    | SchedulerPanic
    | SchedulerClose
    | Reconcile(discovery: Discovery)
    | Commit
    | StopManager

  // ---------------------------------------------------------------- outputs

  function Hear(before: set<NoteKey>, entry: Entry): (after: set<NoteKey>) {
    match entry
    case Opened(_, sounding) => sounding
    case Accepted(_, On(key, _), _) => before + {key}
    case Accepted(_, Off(key), _) => before - {key}
    case Accepted(_, ChannelOff(channel), _) => set key | key in before && key.channel != channel
    case Accepted(_, Other, _) => before
  }

  // The notes output `id` is playing, from the messages it accepted.
  function Sounding(trace: seq<Entry>, id: nat): (sounding: set<NoteKey>) {
    if trace == [] then {}
    else
      var last := |trace| - 1;
      if trace[last].output == id then Hear(Sounding(trace[..last], id), trace[last])
      else Sounding(trace[..last], id)
  }

  // -------------------------------------------------------- gated operations

  function CallbacksOf(active: map<NoteKey, ActiveNote>): (callbacks: set<Callback>) {
    set key | key in active :: Callback(key, active[key].generation)
  }

  // Stops every timer of an active note and forgets the notes.
  function ClearActive(s: State): (s': State) {
    s.(active := map[],
       armed := s.armed - CallbacksOf(s.active),
       late := s.late + CallbacksOf(s.active))
  }

  // One message through the scheduler and the manager.
  function Send(s: State, command: Command): (r: (State, SendResult)) {
    match s.output
    case None => (ClearActive(s), Unavailable)
    case Some(output) =>
      if output.endurance == 0 then
        (ClearActive(s.(output := None, device := NO_DEVICE)), Failed)
      else
        (s.(output := Some(output.(endurance := output.endurance - 1)),
            trace := s.trace + [Accepted(output.id, command, s.clock)]), Sent)
  }

  // The trace after All Notes Off on the channels from `channel` up, sent
  // until the output fails.
  function QuietTrace(trace: seq<Entry>, output: Output, channel: nat, at: int): (after: seq<Entry>)
    decreases 17 - channel
  {
    if channel > 16 || output.endurance == 0 then trace
    else
      QuietTrace(trace + [Accepted(output.id, ChannelOff(channel), at)],
                 output.(endurance := output.endurance - 1), channel + 1, at)
  }

  // All Notes Off on the channels from `channel` up through the manager. An
  // output that fails is disconnected and the rest is unavailable, which is
  // not reported as a failure.
  function Silence(s: State, channel: nat): (s': State)
    requires 1 <= channel <= 17
  {
    match s.output
    case None => s
    case Some(output) =>
      var trace := QuietTrace(s.trace, output, channel, s.clock);
      if output.endurance < 17 - channel then
        s.(output := None, device := NO_DEVICE, trace := trace)
      else
        s.(output := Some(output.(endurance := output.endurance - (17 - channel))), trace := trace)
  }

  function PanicLocked(s: State): (s': State) {
    Silence(ClearActive(s), 1)
  }

  function PruneRate(recent: seq<int>, now: int): (kept: seq<int>) {
    if recent != [] && recent[0] <= now - SECOND then PruneRate(recent[1..], now) else recent
  }

  predicate ValidNote(note: Note) {
    ValidPitch(note.pitch) && 1 <= note.velocity <= 127 && note.duration > 0
  }

  function WriteNote(s: State, note: Note, now: int, cancelled: bool): (r: (State, WriteResult)) {
    if !ValidNote(note) then (s, Invalid)
    else if cancelled then (s, Cancelled)
    else if s.schedulerClosed then (s, SchedulerClosed)
    else Admit(s.(clock := now), note, now)
  }

  function Admit(s: State, note: SoundNote, now: int): (r: (State, WriteResult)) {
    var key := note.pitch;
    var retrigger := key in s.active;
    if retrigger && now - s.active[key].started < s.limits.minimumRetriggerInterval then
      (s, RetriggerLimited)
    else
      var s1 := s.(recent := PruneRate(s.recent, now));
      if |s1.recent| >= s.limits.maximumNotesPerSecond then (s1, RateLimited)
      else if !retrigger && |s1.active| >= s.limits.maximumPolyphony then (s1, PolyphonyLimited)
      else if !retrigger then Start(s1, note, now)
      else
        var (s2, released) := Release(s1, key);
        if released then Start(s2, note, now) else (s2, SendFailed)
  }

  // Stops the timer of an active note, gives the note up and sends its Note
  // Off; All Notes Off is the fallback when that fails.
  function Release(s: State, key: NoteKey): (r: (State, bool))
    requires key in s.active
  {
    var callback := Callback(key, s.active[key].generation);
    var s1 := s.(active := s.active - {key},
                 armed := s.armed - {callback},
                 late := s.late + {callback});
    var (s2, sent) := Send(s1, Off(key));
    if sent == Sent then (s2, true) else (Send(s2, ChannelOff(key.channel)).0, false)
  }

  function Start(s: State, note: SoundNote, now: int): (r: (State, WriteResult)) {
    var key := note.pitch;
    var (s1, sent) := Send(s, On(key, note.velocity));
    if sent != Sent then (s1, SendFailed)
    else
      var generation := s1.nextGeneration + 1;
      (s1.(recent := s1.recent + [now],
           nextGeneration := generation,
           armed := s1.armed + {Callback(key, generation)},
           active := s1.active[key := ActiveNote(now, generation, now + note.duration)]), Played)
  }

  // The timer callback: it ends the note only if the note is still the one
  // the timer was started for.
  function FireCallback(s: State, callback: Callback): (s': State) {
    if callback !in s.armed + s.late then s
    else
      var key := callback.key;
      var ran := s.(armed := s.armed - {callback}, late := s.late - {callback});
      if key !in s.active || s.active[key].generation != callback.generation then ran
      else
        var released := Release(s, key).0;
        released.(late := released.late - {callback})
  }

  function CloseScheduler(s: State): (s': State) {
    if s.schedulerClosed then s else PanicLocked(s.(schedulerClosed := true))
  }

  function CloseRuntime(s: State): (s': State) {
    if s.runtimeClosed then s else CloseScheduler(s.(runtimeClosed := true))
  }

  function PanicRuntime(s: State): (s': State) {
    if s.runtimeClosed then s else PanicLocked(s)
  }

  // ------------------------------------------------------ device transitions

  function BeginReconcile(s: State, discovery: Discovery): (s': State) {
    if s.stopped || s.pending != Idle then s
    else match discovery
      case DiscoveryFailed => s
      case NothingSelected => if s.output.Some? then s.(pending := Disconnecting) else s
      case OpenFailed(_) => s
      case OpenedOutput(device, endurance, sounding) =>
        if s.output.Some? && s.device == device then s
        else
          var output := Output(s.nextOutput, endurance);
          var grown := s.(nextOutput := s.nextOutput + 1,
                           trace := QuietTrace(s.trace + [Opened(output.id, sounding)], output, 1, s.clock));
          if endurance < 16 then grown
          else grown.(pending := Connecting(output.(endurance := endurance - 16), device))
  }

  function ReplaceOutput(s: State, output: Option<Output>, device: Device): (s': State) {
    s.(output := output, device := device)
  }

  function CommitTransition(s: State): (s': State) {
    if s.pending == Idle then s
    else
      var settled := s.(pending := Idle);
      if s.runtimeClosed then settled
      else
        var quiet := if s.output.Some? then PanicLocked(settled) else settled;
        match s.pending
        case Connecting(output, device) => ReplaceOutput(quiet, Some(output), device)
        case Disconnecting => ReplaceOutput(quiet, None, NO_DEVICE)
  }

  // The shutdown part of Run: it runs after the last reconciliation and
  // closes the output without a panic of its own.
  function Stop(s: State): (s': State) {
    if s.pending != Idle then s
    else ReplaceOutput(s.(stopped := true), None, NO_DEVICE)
  }

  // ------------------------------------------------------------------- runs

  function Step(s: State, event: Event): (s': State) {
    match event
    case Write(note, now, cancelled) => WriteNote(s, note, now, cancelled).0
    case Fire(callback) => FireCallback(s, callback)
    case Forget(callback) => s.(late := s.late - {callback})
    case Panic => PanicRuntime(s)
    case Close => CloseRuntime(s)
    case SchedulerPanic => PanicLocked(s)
    case SchedulerClose => CloseScheduler(s)
    case Reconcile(discovery) => BeginReconcile(s, discovery)
    case Commit => CommitTransition(s)
    case StopManager => Stop(s)
  }

  function Run(s: State, events: seq<Event>): (s': State)
    decreases |events|
  {
    if events == [] then s else Run(Step(s, events[0]), events[1..])
  }

  function Initial(limits: Limits, clock: int): (s: State) {
    State(limits, map[], [], 0, false, None, NO_DEVICE, false, false, Idle, 0, clock, {}, {}, [])
  }
}
