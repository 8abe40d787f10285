// One packet through the packet stage: expiry, observation, routing decision
// and mapping; what the notes that come out are guaranteed to be.
module Processing {
  import opened Common
  import opened Packets
  import opened FlowKey
  import opened Modes
  import opened Decimal
  import opened RuleConfigs
  import opened Selector
  import opened Compilation
  import opened FlowRegistry
  import opened Notes
  import opened Mapper
  import opened PeerWire
  import opened Pipeline

  datatype Processed = Ended(fate: Fate) | Sounded(note: NoteEvent)

  // The gap since the flow was last seen; none for a new or reordered packet.
  function InterArrival(e: Packets.Event, previous: int): (gap: int) {
    if previous != ZERO_TIME && e.capturedAt > previous then e.capturedAt - previous else 0
  }

  // What becomes of a packet the registry has observed.
  function Outcome(s: Selector, overlay: Overlay, c: MapperConfig, oracle: Oracle, e: Packets.Event,
                   observed: ObserveResult): (p: Processed)
    requires ValidMapper(c)
  {
    if observed.Rejected? then Ended(InvalidPacket)
    else
      var selection := Evaluate(s, oracle.identify, e, overlay);
      if selection.None? then Ended(EvaluationError)
      else if selection.value.state != Play then Ended(NotPlayed)
      else Voiced(c, oracle, e, observed, selection.value)
  }

  // What becomes of a packet selected to be played.
  function Voiced(c: MapperConfig, oracle: Oracle, e: Packets.Event, observed: ObserveResult, selection: Selection): (p: Processed)
    requires ValidMapper(c) && observed.Observed?
  {
    var gap := InterArrival(e, observed.previousLastSeen);
    var note := Mapper.Map(c, oracle, MapInput(e, observed.flow.packets, gap, selection.channel,
                                               selection.mode, selection.root));
    if note.None? then Ended(ConversionError) else Sounded(note.value)
  }

  // Expires, observes, evaluates and maps.
  method ProcessPacket(registry: Registry, s: Selector, overlay: Overlay, c: MapperConfig, oracle: Oracle, e: Packets.Event)
    returns (p: Processed, ghost observed: ObserveResult, ghost kept: Flows)
    requires registry.Valid() && ValidMapper(c)
    modifies registry
    ensures registry.Valid()
    ensures kept == map id | id in old(registry.View()) && old(registry.View())[id].lastSeen > e.capturedAt - registry.ttl
                        :: old(registry.View())[id]
    ensures ObserveMeans(kept, registry.capacity, registry.identify, e, registry.View(), observed)
    ensures p == Outcome(s, overlay, c, oracle, e, observed)
  {
    var expired := registry.Expire(e.capturedAt);
    kept := registry.View();
    var result := registry.Observe(e);
    observed := result;
    p := RoutePacket(s, overlay, c, oracle, e, result);
  }

  // What follows the observation.
  method RoutePacket(s: Selector, overlay: Overlay, c: MapperConfig, oracle: Oracle, e: Packets.Event, result: ObserveResult)
    returns (p: Processed)
    requires ValidMapper(c)
    ensures p == Outcome(s, overlay, c, oracle, e, result)
  {
    if result.Rejected? { return Ended(InvalidPacket); }
    var selection := Evaluate(s, oracle.identify, e, overlay);
    if selection.None? { return Ended(EvaluationError); }
    if selection.value.state != Play { return Ended(NotPlayed); }
    p := VoicePacket(c, oracle, e, result, selection.value);
  }

  method VoicePacket(c: MapperConfig, oracle: Oracle, e: Packets.Event, result: ObserveResult, selection: Selection)
    returns (p: Processed)
    requires ValidMapper(c) && result.Observed?
    ensures p == Voiced(c, oracle, e, result, selection)
  {
    var gap := 0;
    if result.previousLastSeen != ZERO_TIME && e.capturedAt > result.previousLastSeen {
      gap := e.capturedAt - result.previousLastSeen;
    }
    var note := Mapper.Map(c, oracle, MapInput(e, result.flow.packets, gap, selection.channel, selection.mode, selection.root));
    if note.None? { return Ended(ConversionError); }
    p := Sounded(note.value);
  }

  // The application's own traffic never makes a sound, under any valid policy
  // and overlay.
  lemma OwnTrafficIsSilent(p: Policy, source: SafetySource, overlay: Overlay, c: MapperConfig, oracle: Oracle,
                           e: Packets.Event, observed: ObserveResult)
    requires ValidPolicy(p) && ValidMapper(c) && ValidEvent(e) && OwnTraffic(source, e)
    ensures Outcome(Compile(p, source), overlay, c, oracle, e, observed).Ended?
  {
    OwnTrafficIsIgnored(p, source, oracle.identify, e, overlay);
  }

  // The gap between a packet and the last one of its flow; none for the first
  // packet, or for one that arrives late.
  function GapOf(before: Flows, id: FlowId, e: Packets.Event): (gap: int) {
    if id in before && before[id].lastSeen != ZERO_TIME && e.capturedAt > before[id].lastSeen
    then e.capturedAt - before[id].lastSeen else 0
  }

  // What the mapper is asked for a packet that is to be played.
  ghost function Asked(before: Flows, after: Flows, id: FlowId, e: Packets.Event, d: Selection): (input: MapInput)
    requires id in after
  {
    MapInput(e, after[id].packets, GapOf(before, id, e), d.channel, d.mode, d.root)
  }

  // What becomes of every packet, from the configuration on: an invalid packet
  // or one without a time is dropped; the application's own traffic and what
  // the configuration does not play is not played; everything else becomes the
  // note of its flow's count and gap on the configured channel, or a
  // conversion error. Routing never fails.
  lemma PacketsSoundAsConfigured(p: Policy, source: SafetySource, overlay: Overlay, c: MapperConfig, oracle: Oracle,
                                 before: Flows, capacity: nat, identify: Key -> FlowId, after: Flows,
                                 observed: ObserveResult, e: Packets.Event)
    requires ValidPolicy(p) && ValidMapper(c) && ObserveMeans(before, capacity, identify, e, after, observed)
    ensures var outcome := Outcome(Compile(p, source), overlay, c, oracle, e, observed);
            var id := identify(Canonicalize(e).0);
            if !ValidEvent(e) || e.capturedAt == ZERO_TIME then outcome == Ended(InvalidPacket)
            else if OwnTraffic(source, e) then outcome == Ended(NotPlayed)
            else
              var d := Configured(p, oracle.identify, e, overlay);
              && id in after
              && outcome == if d.state != Play then Ended(NotPlayed)
                            else
                              var note := Mapper.Map(c, oracle, Asked(before, after, id, e, d));
                              if note.Some? then Sounded(note.value) else Ended(ConversionError)
  {
    if ValidEvent(e) && e.capturedAt != ZERO_TIME {
      if OwnTraffic(source, e) {
        OwnTrafficIsIgnored(p, source, oracle.identify, e, overlay);
      } else {
        CompilationPreservesMeaning(p, source, oracle.identify, e, overlay);
        ObservedGap(before, capacity, identify, after, observed, e);
      }
    }
  }

  lemma ObservedGap(before: Flows, capacity: nat, identify: Key -> FlowId, after: Flows, observed: ObserveResult, e: Packets.Event)
    requires ObserveMeans(before, capacity, identify, e, after, observed) && observed.Observed?
    ensures var id := identify(Canonicalize(e).0);
            && id in after && observed.flow == after[id]
            && InterArrival(e, observed.previousLastSeen) == GapOf(before, id, e)
  {
  }

  // A packet the configuration plays always sounds if flow identifiers are
  // well formed and the note range has at least two notes.
  lemma PlayedPacketsSound(p: Policy, source: SafetySource, overlay: Overlay, c: MapperConfig, oracle: Oracle,
                           before: Flows, capacity: nat, identify: Key -> FlowId, after: Flows,
                           observed: ObserveResult, e: Packets.Event)
    requires ValidPolicy(p) && ValidMapper(c) && ObserveMeans(before, capacity, identify, e, after, observed)
    requires ValidEvent(e) && e.capturedAt != ZERO_TIME && !OwnTraffic(source, e)
    requires Configured(p, oracle.identify, e, overlay).state == Play
    requires HexId(oracle.identify(c.seed, Canonicalize(e).0)) && c.minimumNote < c.maximumNote
    ensures Outcome(Compile(p, source), overlay, c, oracle, e, observed).Sounded?
  {
    var d := Configured(p, oracle.identify, e, overlay);
    var id := identify(Canonicalize(e).0);
    PacketsSoundAsConfigured(p, source, overlay, c, oracle, before, capacity, identify, after, observed, e);
    ConfiguredIsPlayable(p, source, oracle.identify, e, overlay);
    PlayableMaps(c, oracle, Asked(before, after, id, e, d));
  }

  lemma ConfiguredIsPlayable(p: Policy, source: SafetySource, identify: (string, Key) -> FlowId, e: Packets.Event, overlay: Overlay)
    requires ValidPolicy(p) && ValidEvent(e) && !OwnTraffic(source, e)
    ensures var d := Configured(p, identify, e, overlay);
            1 <= d.channel <= 16 && (d.mode != "" ==> d.mode in MODE_NAMES && d.root <= 11)
  {
    CompilationPreservesMeaning(p, source, identify, e, overlay);
    CompilationIsTotal(p, source);
    SelectionsAreRoutable(Compile(p, source), identify, e, overlay);
  }

  lemma PlayableMaps(c: MapperConfig, oracle: Oracle, input: MapInput)
    requires ValidMapper(c) && ValidEvent(input.packet) && 1 <= input.channel <= 16 && c.minimumNote < c.maximumNote
    requires HexId(oracle.identify(c.seed, Canonicalize(input.packet).0))
    requires input.mode != "" ==> input.mode in MODE_NAMES && input.root <= 11
    ensures Mapper.Map(c, oracle, input).Some?
  {
    ModeRoundTrip(0, input.mode);
    MappingIsTotal(c, oracle, input);
  }

  // A note belongs to the flow the registry recorded the packet under and
  // bears the count of its packets; its channel is the one selected.
  lemma NoteFollowsItsFlow(before: Flows, capacity: nat, identify: Key -> FlowId, after: Flows, observed: ObserveResult,
                           s: Selector, overlay: Overlay, c: MapperConfig, oracle: Oracle, e: Packets.Event)
    requires Keyed(before) && ObserveMeans(before, capacity, identify, e, after, observed) && ValidMapper(c)
    requires identify(Canonicalize(e).0) == oracle.identify(c.seed, Canonicalize(e).0)
    requires Outcome(s, overlay, c, oracle, e, observed).Sounded?
    ensures var note := Outcome(s, overlay, c, oracle, e, observed).note;
            && note.flowId in after && after[note.flowId] == observed.flow
            && note.sequence == after[note.flowId].packets > 0
            && note.createdAt == e.capturedAt
  {
    var selection := Evaluate(s, oracle.identify, e, overlay).value;
    var gap := InterArrival(e, observed.previousLastSeen);
    var input := MapInput(e, observed.flow.packets, gap, selection.channel, selection.mode, selection.root);
    MappedShape(c, oracle, input);
    MappedCopies(c, oracle, input);
    ObservedFlow(before, capacity, identify, after, observed, e);
  }

  lemma MappedCopies(c: MapperConfig, oracle: Oracle, input: MapInput)
    requires ValidMapper(c) && Mapper.Map(c, oracle, input).Some?
    ensures var e := Mapper.Map(c, oracle, input).value;
            && e.sequence == input.sequence && e.createdAt == input.packet.capturedAt && e.channel == input.channel
            && e.id == EventId(c.origin, e.flowId, input.sequence) && e.origin == c.origin
            && e.mappingVersion == FLOW_MODE_V1
            && e.duration == Quantized(input.interArrival, c.minimumDuration, c.maximumDuration)
  {
  }

  lemma ObservedFlow(before: Flows, capacity: nat, identify: Key -> FlowId, after: Flows, observed: ObserveResult, e: Packets.Event)
    requires Keyed(before) && ObserveMeans(before, capacity, identify, e, after, observed) && observed.Observed?
    ensures var id := identify(Canonicalize(e).0);
            id in after && after[id] == observed.flow && observed.flow.packets > 0
  {
  }

  // --------------------------------------------------------------- transport

  function Pow10(n: nat): (power: nat) {
    if n == 0 then 1 else 10 * Pow10(n - 1)
  }

  lemma {:induction false} ItoaIsShort(n: nat, digits: nat)
    requires digits > 0 && n < Pow10(digits)
    ensures |Itoa(n)| <= digits
    decreases digits
  {
    if n >= 10 {
      assert Pow10(digits) == 10 * Pow10(digits - 1);
      assert digits > 1 by { assert Pow10(0) == 1; }
      ItoaIsShort(n / 10, digits - 1);
    }
  }

  lemma {:induction false} ItoaIsDigits(n: nat)
    ensures forall c | c in Itoa(n) :: '0' <= c <= '9'
  {
    if n >= 10 { ItoaIsDigits(n / 10); }
  }

  // Identifiers the mapper builds from a safe origin are safe.
  lemma EventIdIsSafe(origin: string, flowId: string, sequence: nat)
    requires SafeIdentifier(origin, 128) && HexId(flowId) && sequence < Pow10(20)
    ensures SafeIdentifier(EventId(origin, flowId, sequence), 256)
  {
    var number := Itoa(sequence);
    var id := EventId(origin, flowId, sequence);
    ItoaIsShort(sequence, 20);
    ItoaIsDigits(sequence);
    assert id[0] == origin[0];
    assert id[|id| - 1] == number[|number| - 1];
    assert number[|number| - 1] in number;
    HexIsUncontrolled(flowId);
    DigitsAreUncontrolled(number);
    Uncontrolled(origin, ":");
    Uncontrolled(origin + ":", flowId);
    Uncontrolled(origin + ":" + flowId, ":");
    Uncontrolled(origin + ":" + flowId + ":", number);
  }

  lemma HexIsUncontrolled(flowId: string)
    requires HexId(flowId)
    ensures forall c | c in flowId :: !Control(c)
  {
  }

  lemma DigitsAreUncontrolled(number: string)
    requires forall c | c in number :: '0' <= c <= '9'
    ensures (forall c | c in number :: !Control(c)) && (forall c | c in number :: !White(c))
  {
  }

  lemma Uncontrolled(a: string, b: string)
    requires (forall c | c in a :: !Control(c)) && (forall c | c in b :: !Control(c))
    ensures forall c | c in a + b :: !Control(c)
  {
  }

  lemma WholeMilliseconds(interArrival: int, minimum: int, maximum: int)
    requires minimum % MILLISECOND == 0 && maximum % MILLISECOND == 0
    ensures Quantized(interArrival, minimum, maximum) % MILLISECOND == 0
  {
    var d := (interArrival + QUANTUM / 2) / QUANTUM;
    assert d * QUANTUM == (d * 25) * MILLISECOND;
  }

  // A note the mapper makes can be sent to a peer exactly if the origin is a
  // safe identifier, the packet has a sequence and a time, and the duration
  // is in whole milliseconds.
  lemma MappedNotesTravel(c: MapperConfig, oracle: Oracle, input: MapInput)
    requires ValidMapper(c) && Mapper.Map(c, oracle, input).Some? && input.sequence < Pow10(20)
    ensures NoteFromEvent(Mapper.Map(c, oracle, input).value).Some? <==>
            && SafeIdentifier(c.origin, 128) && input.sequence > 0 && input.packet.capturedAt != ZERO_TIME
            && Quantized(input.interArrival, c.minimumDuration, c.maximumDuration) % MILLISECOND == 0
  {
    var e := Mapper.Map(c, oracle, input).value;
    MappedShape(c, oracle, input);
    MappedCopies(c, oracle, input);
    MappingIsTotal(c, oracle, input);
    if SafeIdentifier(c.origin, 128) { EventIdIsSafe(c.origin, e.flowId, input.sequence); }
  }
}
