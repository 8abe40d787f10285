// The wire form of notes and the envelope of peer messages.
module PeerWire {
  import opened Common
  import opened Packets
  import opened Modes
  import opened RuleConfigs
  import opened Notes

  datatype WireNote = WireNote(
    id: string,
    origin: string,
    sequence: nat,
    mappingVersion: string,
    flowId: string,
    mode: string,
    root: nat,
    pitch: nat,
    velocity: nat,
    durationMs: int,
    channel: nat,
    createdAt: int)

  predicate Control(c: char) {
    c < ' ' || 0x7f <= c as int <= 0x9f
  }

  predicate SafeIdentifier(value: string, maximum: nat) {
    && value != "" && !White(value[0]) && !White(value[|value| - 1])
    && |value| <= maximum
    && forall c | c in value :: !Control(c)
  }

  // The events that may cross the wire.
  predicate Transportable(e: NoteEvent) {
    && ValidNote(e)
    && SafeIdentifier(e.id, 256) && SafeIdentifier(e.origin, 128)
    && HexId(e.flowId)
    && e.mappingVersion == FLOW_MODE_V1
    && e.sequence > 0
    && e.createdAt != ZERO_TIME && e.duration % MILLISECOND == 0
  }

  function NoteFromEvent(e: NoteEvent): (note: Option<WireNote>) {
    if !Transportable(e) then None
    else Some(WireNote(e.id, e.origin, e.sequence, e.mappingVersion, e.flowId, ModeName(e.mode), e.root, e.note,
                       e.velocity, e.duration / MILLISECOND, e.channel, e.createdAt))
  }

  function EventFromNote(note: WireNote): (event: Option<NoteEvent>) {
    if note.durationMs <= 0 || note.durationMs > MAX_INT64 / MILLISECOND then None
    else
      var mode := ParseMode(note.mode);
      if mode.None? then None
      else
        var e := NoteEvent(note.id, note.origin, note.sequence, note.mappingVersion, note.flowId, mode.value, note.root,
                           note.pitch, note.velocity, note.durationMs * MILLISECOND, note.channel, note.createdAt);
        if Transportable(e) then Some(e) else None
  }

  // The two conversions are inverse partial functions: a wire note stands for
  // an event exactly if the event converts to that note, and then both say the
  // same under the same names.
  lemma ConversionsAreInverse(e: NoteEvent, note: WireNote)
    ensures NoteFromEvent(e) == Some(note) <==> EventFromNote(note) == Some(e)
    ensures NoteFromEvent(e) == Some(note) ==>
              && (note.id, note.origin, note.flowId) == (e.id, e.origin, e.flowId)
              && note.sequence == e.sequence && note.mappingVersion == e.mappingVersion
              && ParseMode(note.mode) == Some(e.mode) && note.root == e.root
              && note.pitch == e.note && note.velocity == e.velocity && note.channel == e.channel
              && note.durationMs * MILLISECOND == e.duration && note.createdAt == e.createdAt
  {
    if NoteFromEvent(e) == Some(note) {
      ModeRoundTrip(e.mode, note.mode);
    }
    if EventFromNote(note) == Some(e) {
      ModeRoundTrip(e.mode, note.mode);
    }
  }

  // ------------------------------------------------------------------ envelope

  const PROTOCOL_VERSION := "peer-v1"

  datatype Hello = Hello(instanceId: string, role: string, mappingVersion: string)

  datatype Heartbeat = Heartbeat(nonce: nat, sentAt: int)

  datatype ProtocolError = ProtocolError(code: string, detail: string)

  datatype Message = Message(
    kind: string,
    version: string,
    hello: Option<Hello>,
    note: Option<WireNote>,
    ping: Option<Heartbeat>,
    pong: Option<Heartbeat>,
    error: Option<ProtocolError>)

  predicate ValidHello(h: Hello) {
    && SafeIdentifier(h.instanceId, 128)
    && (h.role == "edge" || h.role == "host") && h.mappingVersion == FLOW_MODE_V1
  }

  predicate ValidHeartbeat(h: Heartbeat) {
    h.nonce != 0 && h.sentAt != ZERO_TIME
  }

  predicate ValidError(e: ProtocolError) {
    SafeIdentifier(e.code, 64) && !Blank(e.detail) && |e.detail| <= 256
  }

  // What a message of each type carries: that payload, valid, and no other.
  ghost predicate WellFormed(m: Message) {
    && m.version == PROTOCOL_VERSION
    && match m.kind
       case "hello" => m == Message("hello", m.version, m.hello, None, None, None, None) && m.hello.Some? && ValidHello(m.hello.value)
       case "note" => m == Message("note", m.version, None, m.note, None, None, None) && m.note.Some? && EventFromNote(m.note.value).Some?
       case "ping" => m == Message("ping", m.version, None, None, m.ping, None, None) && m.ping.Some? && ValidHeartbeat(m.ping.value)
       case "pong" => m == Message("pong", m.version, None, None, None, m.pong, None) && m.pong.Some? && ValidHeartbeat(m.pong.value)
       case "error" => m == Message("error", m.version, None, None, None, None, m.error) && m.error.Some? && ValidError(m.error.value)
       case _ => false
  }

  function Bit(flag: bool): (n: nat) {
    if flag then 1 else 0
  }

  // How many of the first n flags are set.
  function Count(flags: seq<bool>, n: nat): (count: nat)
    requires n <= |flags|
  {
    if n == 0 then 0 else Count(flags, n - 1) + Bit(flags[n - 1])
  }

  lemma CountFive(flags: seq<bool>)
    requires |flags| == 5
    ensures Count(flags, 5) == Bit(flags[0]) + Bit(flags[1]) + Bit(flags[2]) + Bit(flags[3]) + Bit(flags[4])
  {
    assert Count(flags, 1) == Bit(flags[0]);
    assert Count(flags, 2) == Count(flags, 1) + Bit(flags[1]);
    assert Count(flags, 3) == Count(flags, 2) + Bit(flags[2]);
  }

  // Counts the payloads, then checks the one the type names.
  method ValidateMessage(m: Message) returns (ok: bool)
    ensures ok <==> WellFormed(m)
  {
    if m.version != PROTOCOL_VERSION { return false; }
    var present := [m.hello.Some?, m.note.Some?, m.ping.Some?, m.pong.Some?, m.error.Some?];
    var payloads := 0;
    for i := 0 to |present|
      invariant payloads == Count(present, i)
    {
      if present[i] { payloads := payloads + 1; }
    }
    CountFive(present);
    if payloads != 1 { return false; }
    ok := match m.kind
      case "hello" => m.hello.Some? && ValidHello(m.hello.value)
      case "note" => m.note.Some? && EventFromNote(m.note.value).Some?
      case "ping" => m.ping.Some? && ValidHeartbeat(m.ping.value)
      case "pong" => m.pong.Some? && ValidHeartbeat(m.pong.value)
      case "error" => m.error.Some? && ValidError(m.error.value)
      case _ => false;
  }
}
