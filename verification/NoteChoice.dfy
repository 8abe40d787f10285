// Which note a packet plays and what the rest of its event says, apart from
// the arithmetic that computes it.
module NoteChoice {
  import opened Common
  import opened Packets
  import opened FlowKey
  import opened Modes
  import opened Decimal
  import opened RuleConfigs
  import opened Notes
  import opened Mapper

  // ----------------------------------------------------------- going up a scale

  // The first note above `note`, or the lowest when there is none.
  function NextAbove(notes: seq<int>, note: int): (next: int)
    requires notes != []
  {
    var above := FirstAbove(notes, note);
    if above.Some? then above.value else notes[0]
  }

  function FirstAbove(notes: seq<int>, note: int): (above: Option<int>) {
    if notes == [] then None
    else if notes[0] > note then Some(notes[0])
    else FirstAbove(notes[1..], note)
  }

  function Climb(notes: seq<int>, note: int, steps: nat): (reached: int)
    requires notes != []
  {
    if steps == 0 then note else NextAbove(notes, Climb(notes, note, steps - 1))
  }

  lemma {:induction false} FirstAboveAt(notes: seq<int>, i: nat)
    requires Ascending(notes) && i < |notes|
    ensures FirstAbove(notes, notes[i]) == if i + 1 < |notes| then Some(notes[i + 1]) else None
    decreases |notes|
  {
    if i > 0 {
      FirstAboveAt(notes[1..], i - 1);
    } else if |notes| > 1 {
      assert FirstAbove(notes, notes[0]) == FirstAbove(notes[1..], notes[0]);
    }
  }

  lemma Wraps(i: nat, size: nat)
    requires i < size
    ensures (i + 1) % size == if i + 1 < size then i + 1 else 0
  {
    if i + 1 < size { RemainderIs(i + 1, size, 0, i + 1); } else { RemainderIs(i + 1, size, 1, 0); }
  }

  lemma NextAboveAt(notes: seq<int>, i: nat)
    requires Ascending(notes) && i < |notes|
    ensures NextAbove(notes, notes[i]) == notes[(i + 1) % |notes|]
  {
    FirstAboveAt(notes, i);
    Wraps(i, |notes|);
  }

  lemma NextRemainder(n: nat, size: nat)
    requires size > 0
    ensures (n + 1) % size == (n % size + 1) % size
  {
    Wraps(n % size, size);
    NextOfQuotient(n + 1, size, n / size, n % size);
  }

  lemma NextOfQuotient(next: nat, size: nat, q: nat, r: nat)
    requires r < size && next == size * q + r + 1
    ensures next % size == if r + 1 < size then r + 1 else 0
  {
    if r + 1 < size {
      RemainderIs(next, size, q, r + 1);
    } else {
      assert size * (q + 1) == size * q + size;
      RemainderIs(next, size, q + 1, 0);
    }
  }

  // Climbing in steps from the note at position i goes round the scale.
  lemma {:induction false} ClimbGoesRound(notes: seq<int>, i: nat, steps: nat)
    requires Ascending(notes) && notes != []
    ensures Climb(notes, notes[i % |notes|], steps) == notes[(i + steps) % |notes|]
    decreases steps
  {
    if steps > 0 {
      ClimbGoesRound(notes, i, steps - 1);
      NextAboveAt(notes, (i + steps - 1) % |notes|);
      NextRemainder(i + steps - 1, |notes|);
    }
  }

  // ------------------------------------------------------------ the note played

  // The scale notes a mapped event was chosen from, in ascending order.
  function ScaleOf(c: MapperConfig, e: NoteEvent): (notes: seq<int>)
    requires ValidMode(e.mode)
  {
    ScaleNotes(e.mode, e.root, c.minimumNote, c.maximumNote)
  }

  // The packet's position, counted from the lowest note.
  lemma PlayedAt(c: MapperConfig, oracle: Oracle, input: MapInput) returns (position: nat)
    requires ValidMapper(c) && Map(c, oracle, input).Some?
    ensures var e := Map(c, oracle, input).value;
            && ValidMode(e.mode) && Ascending(ScaleOf(c, e)) && ScaleOf(c, e) != []
            && e.note == ScaleOf(c, e)[position % |ScaleOf(c, e)|]
            && position == Position(input.packet, |ScaleOf(c, e)|)
  {
    MappedShape(c, oracle, input);
    var e := Map(c, oracle, input).value;
    ScaleNotesAreTheScale(e.mode, e.root, c.minimumNote, c.maximumNote);
    position := Position(input.packet, |ScaleOf(c, e)|);
  }

  function Position(packet: Event, size: nat): (position: nat)
    requires packet.wireLength >= 0
  {
    packet.wireLength + ProtocolOffset(packet.protocol) + FlagOffset(packet.flags)
    + (if Canonicalize(packet).1 == BToA then (size + 1) / 2 else 0)
  }

  // Two packets `steps` positions apart, mapped to one scale, sound that many
  // scale notes apart.
  lemma PositionsSoundApart(c: MapperConfig, oracle: Oracle, x: MapInput, y: MapInput, steps: nat)
    requires ValidMapper(c) && Map(c, oracle, x).Some? && Map(c, oracle, y).Some?
    requires var a, b := Map(c, oracle, x).value, Map(c, oracle, y).value; a.mode == b.mode && a.root == b.root
    requires ValidEvent(x.packet) && ValidEvent(y.packet)
    requires var a := Map(c, oracle, x).value;
             ValidMode(a.mode) && Position(y.packet, |ScaleOf(c, a)|) == Position(x.packet, |ScaleOf(c, a)|) + steps
    ensures var a, b := Map(c, oracle, x).value, Map(c, oracle, y).value;
            ScaleOf(c, a) != [] && b.note == Climb(ScaleOf(c, a), a.note, steps)
  {
    var i := PlayedAt(c, oracle, x);
    var j := PlayedAt(c, oracle, y);
    ClimbGoesRound(ScaleOf(c, Map(c, oracle, x).value), i, steps);
  }

  lemma MappedIsValid(c: MapperConfig, oracle: Oracle, input: MapInput)
    requires ValidMapper(c) && Map(c, oracle, input).Some?
    ensures ValidEvent(input.packet) && ValidMode(Map(c, oracle, input).value.mode)
    ensures ScaleOf(c, Map(c, oracle, input).value) != []
  {
    MappedShape(c, oracle, input);
  }

  lemma EmptyIsAtTheBottom(packet: Event, size: nat)
    requires packet.wireLength == 0 && packet.protocol == Tcp && packet.flags == {}
    requires packet.source == Canonicalize(packet).0.a && size > 0
    ensures Position(packet, size) == 0 && 0 % size == 0
  {
  }

  lemma FirstIsLowest(notes: seq<int>)
    requires Ascending(notes) && notes != []
    ensures notes[0] in notes && forall n | n in notes :: notes[0] <= n
  {
  }

  // An empty TCP packet without flags from the first endpoint plays the lowest
  // note of the scale in range.
  lemma EmptyPacketPlaysTheLowest(c: MapperConfig, oracle: Oracle, input: MapInput)
    requires ValidMapper(c) && Map(c, oracle, input).Some?
    requires input.packet.wireLength == 0 && input.packet.protocol == Tcp && input.packet.flags == {}
    requires input.packet.source == Canonicalize(input.packet).0.a
    ensures var e := Map(c, oracle, input).value;
            && ValidMode(e.mode) && e.note in ScaleOf(c, e)
            && forall n | n in ScaleOf(c, e) :: e.note <= n
  {
    var position := PlayedAt(c, oracle, input);
    EmptyIsAtTheBottom(input.packet, |ScaleOf(c, Map(c, oracle, input).value)|);
    FirstIsLowest(ScaleOf(c, Map(c, oracle, input).value));
  }

  // Two packets that differ as described sound that many notes apart, going
  // round the scale in range, if they are mapped to one mode and root.
  ghost predicate SoundApart(c: MapperConfig, oracle: Oracle, x: MapInput, y: MapInput, steps: nat)
    requires ValidMapper(c)
  {
    Map(c, oracle, x).Some? && Map(c, oracle, y).Some? ==>
      var a, b := Map(c, oracle, x).value, Map(c, oracle, y).value;
      ValidMode(a.mode) && (a.mode == b.mode && a.root == b.root ==>
        ScaleOf(c, a) != [] && b.note == Climb(ScaleOf(c, a), a.note, steps))
  }

  lemma SoundsApart(c: MapperConfig, oracle: Oracle, x: MapInput, y: MapInput, steps: nat)
    requires ValidMapper(c)
    requires forall size: nat | ValidEvent(x.packet) && ValidEvent(y.packet) ::
               Position(y.packet, size) == Position(x.packet, size) + steps
    ensures SoundApart(c, oracle, x, y, steps)
  {
    if Map(c, oracle, x).Some? && Map(c, oracle, y).Some? {
      MappedIsValid(c, oracle, x);
      MappedIsValid(c, oracle, y);
      var a, b := Map(c, oracle, x).value, Map(c, oracle, y).value;
      if a.mode == b.mode && a.root == b.root { PositionsSoundApart(c, oracle, x, y, steps); }
    }
  }

  // Each byte more is one note up.
  lemma LengthClimbs(c: MapperConfig, oracle: Oracle, x: MapInput, y: MapInput, more: nat)
    requires ValidMapper(c) && y.packet.wireLength == x.packet.wireLength + more
    requires y.packet == x.packet.(wireLength := y.packet.wireLength, capturedAt := y.packet.capturedAt,
                                   capturedLength := y.packet.capturedLength, payloadLength := y.packet.payloadLength)
    ensures SoundApart(c, oracle, x, y, more)
  {
    SoundsApart(c, oracle, x, y, more);
  }

  // UDP lies two notes above TCP, both kinds of ICMP four, everything else
  // six.
  lemma ProtocolsClimb(c: MapperConfig, oracle: Oracle, x: MapInput, y: MapInput)
    requires ValidMapper(c) && x.packet.protocol == Tcp && y.packet == x.packet.(protocol := y.packet.protocol)
    requires !y.packet.protocol.Unsupported?
    ensures SoundApart(c, oracle, x, y, match y.packet.protocol
                                        case Tcp => 0
                                        case Udp => 2
                                        case Icmp => 4
                                        case Icmp6 => 4
                                        case OtherIp => 6)
  {
    SoundsApart(c, oracle, x, y, ProtocolOffset(y.packet.protocol));
  }

  // SYN is worth one note, FIN two and RST three; the other flags none.
  lemma FlagsClimb(c: MapperConfig, oracle: Oracle, x: MapInput, y: MapInput, flag: TcpFlag)
    requires ValidMapper(c) && flag !in x.packet.flags && y.packet == x.packet.(flags := x.packet.flags + {flag})
    ensures SoundApart(c, oracle, x, y, match flag
                                        case Syn => 1
                                        case Fin => 2
                                        case Rst => 3
                                        case _ => 0)
  {
    FlagSteps(x.packet.flags, flag);
    SoundsApart(c, oracle, x, y, match flag case Syn => 1 case Fin => 2 case Rst => 3 case _ => 0);
  }

  lemma FlagSteps(flags: set<TcpFlag>, flag: TcpFlag)
    requires flag !in flags
    ensures FlagOffset(flags + {flag}) == FlagOffset(flags) + match flag case Syn => 1 case Fin => 2 case Rst => 3 case _ => 0
  {
  }

  // The way back lies half the scale, rounded up, above the way out.
  lemma ReplyClimbs(c: MapperConfig, oracle: Oracle, x: MapInput, y: MapInput)
    requires ValidMapper(c) && Map(c, oracle, x).Some? && Map(c, oracle, y).Some?
    requires y.packet == Reverse(x.packet) && x.packet.source != x.packet.destination
    requires x.packet.source == Canonicalize(x.packet).0.a && y.mode == x.mode && y.root == x.root
    ensures var a, b := Map(c, oracle, x).value, Map(c, oracle, y).value;
            && ValidMode(a.mode) && ScaleOf(c, a) != []
            && b.note == Climb(ScaleOf(c, a), a.note, (|ScaleOf(c, a)| + 1) / 2)
  {
    CanonicalKeyIgnoresDirection(x.packet);
    MappedShape(c, oracle, x);
    MappedShape(c, oracle, y);
    MappedIsValid(c, oracle, x);
    MappedIsValid(c, oracle, y);
    PositionsSoundApart(c, oracle, x, y, (|ScaleOf(c, Map(c, oracle, x).value)| + 1) / 2);
  }

  // -------------------------------------------------------- the rest of the event

  // The mode and root a packet is mapped with: the ones asked for, else those
  // the flow's digest gives.
  ghost predicate HasIdentity(oracle: Oracle, input: MapInput, flowId: string, mode: Mode, root: nat) {
    if input.mode == "" then mode == oracle.digest(flowId).0 % 7 && root == oracle.digest(flowId).1 % 12
    else mode < 7 && input.mode == MODE_NAMES[mode] && root == input.root
  }

  lemma IdentityIsDetermined(oracle: Oracle, input: MapInput, flowId: string, mode: Mode, root: nat)
    requires HexId(flowId)
    ensures ChosenIdentity(oracle, input, flowId) == Some((mode, root)) <==>
            HasIdentity(oracle, input, flowId, mode, root) && (input.mode == "" || root <= 11)
  {
    ModeRoundTrip(mode, input.mode);
  }

  lemma MapsIfInRange(c: MapperConfig, oracle: Oracle, input: MapInput)
    requires ValidMapper(c)
    ensures var identity := MappedIdentity(c, oracle, input);
            && (identity.None? ==> Map(c, oracle, input).None?)
            && (identity.Some? ==>
                  (Map(c, oracle, input).Some? <==>
                     c.minimumNote < c.maximumNote || InMode(identity.value.0, c.minimumNote - identity.value.1)))
  {
    MappingIsTotal(c, oracle, input);
  }

  lemma MappedIdentityIs(c: MapperConfig, oracle: Oracle, input: MapInput, mode: Mode, root: nat)
    requires ValidMode(mode) && HasIdentity(oracle, input, oracle.identify(c.seed, Canonicalize(input.packet).0), mode, root)
    ensures MappedIdentity(c, oracle, input) ==
            if ValidEvent(input.packet) && 1 <= input.channel <= 16
               && HexId(oracle.identify(c.seed, Canonicalize(input.packet).0)) && root <= 11
            then Some((mode, root)) else None
  {
    var flowId := oracle.identify(c.seed, Canonicalize(input.packet).0);
    if HexId(flowId) { IdentityIsDetermined(oracle, input, flowId, mode, root); }
    ModeRoundTrip(mode, input.mode);
  }

  // A packet is mapped exactly if it is valid, on a real channel, its flow's
  // identifier is well formed, the root is one of twelve, and some scale note
  // of its identity is in range.
  lemma MappedExactly(c: MapperConfig, oracle: Oracle, input: MapInput, mode: Mode, root: nat)
    requires ValidMapper(c) && ValidMode(mode)
    requires HasIdentity(oracle, input, oracle.identify(c.seed, Canonicalize(input.packet).0), mode, root)
    ensures Map(c, oracle, input).Some? <==>
              && ValidEvent(input.packet) && 1 <= input.channel <= 16
              && HexId(oracle.identify(c.seed, Canonicalize(input.packet).0)) && root <= 11
              && (c.minimumNote < c.maximumNote || InMode(mode, c.minimumNote - root))
  {
    MapsIfInRange(c, oracle, input);
    MappedIdentityIs(c, oracle, input, mode, root);
  }

  // A mode that is none of the seven is never mapped.
  lemma UnknownModeIsNotMapped(c: MapperConfig, oracle: Oracle, input: MapInput)
    requires ValidMapper(c) && input.mode != "" && input.mode !in MODE_NAMES
    ensures Map(c, oracle, input).None?
  {
    ModeRoundTrip(0, input.mode);
    MapsIfInRange(c, oracle, input);
  }

  // The event says where it comes from: identity, loudness, duration, channel,
  // time and name.
  lemma MappedEventTells(c: MapperConfig, oracle: Oracle, input: MapInput)
    requires ValidMapper(c) && Map(c, oracle, input).Some?
    ensures var e := Map(c, oracle, input).value;
            var packet := input.packet;
            && e.flowId == oracle.identify(c.seed, Canonicalize(packet).0)
            && HasIdentity(oracle, input, e.flowId, e.mode, e.root)
            && e.id == c.origin + ":" + e.flowId + ":" + Itoa(input.sequence)
            && e.origin == c.origin && e.sequence == input.sequence && e.mappingVersion == "flow-mode-v1"
            && e.channel == input.channel && e.createdAt == packet.capturedAt
            && e.duration == Quantized(input.interArrival, c.minimumDuration, c.maximumDuration)
  {
    MappedShape(c, oracle, input);
    var e := Map(c, oracle, input).value;
    assert HexId(e.flowId);
    IdentityIsDetermined(oracle, input, e.flowId, e.mode, e.root);
  }

  // Loudness follows the curve; a control packet is ten louder than the same
  // packet without its control flags; 127 is the limit of both.
  lemma ControlPacketsAreLouder(c: MapperConfig, oracle: Oracle, input: MapInput)
    requires ValidMapper(c) && Map(c, oracle, input).Some?
    ensures var e := Map(c, oracle, input).value;
            var base := 1 + oracle.loudness(input.packet.wireLength);
            && (input.packet.flags !! {Syn, Fin, Rst} ==> e.velocity == if base <= 127 then base else 127)
            && (!(input.packet.flags !! {Syn, Fin, Rst}) ==> e.velocity == if base <= 117 then base + 10 else 127)
  {
    assert input.packet.flags !! {Syn, Fin, Rst} <==>
           Syn !in input.packet.flags && Fin !in input.packet.flags && Rst !in input.packet.flags;
  }
}
