// The flow-mode-v1 mapping: scale notes, note choice, duration and event
// identity.
module Mapper {
  import opened Common
  import opened Packets
  import opened FlowKey
  import opened Modes
  import opened Decimal
  import opened RuleConfigs
  import opened Notes

  // ----------------------------------------------------------------- scales

  // Whether a distance from the root, in semitones, belongs to the mode.
  predicate InMode(mode: Mode, distance: int)
    requires ValidMode(mode)
  {
    distance % 12 in Intervals(mode)
  }

  // The numbers of a range that satisfy a condition, in order.
  function Select(member: int -> bool, minimum: int, maximum: int): (numbers: seq<int>)
    decreases maximum - minimum
  {
    if maximum < minimum then []
    else Select(member, minimum, maximum - 1) + (if member(maximum) then [maximum] else [])
  }

  lemma {:induction false} SelectSelects(member: int -> bool, minimum: int, maximum: int)
    ensures Ascending(Select(member, minimum, maximum))
    ensures forall n :: n in Select(member, minimum, maximum) <==> minimum <= n <= maximum && member(n)
    decreases maximum - minimum
  {
    if minimum <= maximum {
      var earlier := Select(member, minimum, maximum - 1);
      SelectSelects(member, minimum, maximum - 1);
      assert forall i | 0 <= i < |earlier| :: earlier[i] in earlier;
    }
  }

  function ScaleNotes(mode: Mode, root: nat, minimum: int, maximum: int): (notes: seq<int>)
    requires ValidMode(mode)
  {
    Select(InScale(mode, root), minimum, maximum)
  }

  // The notes of the mode on that root.
  function InScale(mode: Mode, root: nat): (member: int -> bool)
    requires ValidMode(mode)
    ensures forall n :: member(n) <==> InMode(mode, n - root)
  {
    (n: int) => InMode(mode, n - root)
  }

  // The notes are strictly ascending and exactly those in range and in scale.
  lemma ScaleNotesAreTheScale(mode: Mode, root: nat, minimum: int, maximum: int)
    requires ValidMode(mode)
    ensures Ascending(ScaleNotes(mode, root, minimum, maximum))
    ensures forall n :: n in ScaleNotes(mode, root, minimum, maximum) <==>
              minimum <= n <= maximum && InMode(mode, n - root)
  {
    SelectSelects(InScale(mode, root), minimum, maximum);
  }

  // The two nested loops of the program, with its truncating remainder.
  method FindScaleNotes(mode: Mode, root: nat, minimum: nat, maximum: nat) returns (notes: seq<int>)
    requires ValidMode(mode)
    ensures notes == ScaleNotes(mode, root, minimum, maximum)
  {
    notes := [];
    var note := minimum;
    while note <= maximum
      invariant minimum <= note && (note <= maximum + 1 || note == minimum)
      invariant notes == ScaleNotes(mode, root, minimum, note - 1)
      decreases maximum - note
    {
      var pitchClass: int := if note >= root then (note - root) % 12 else -((root - note) % 12);
      if pitchClass < 0 { pitchClass := pitchClass + 12; }
      RemainderAgrees(note, root, pitchClass);
      var intervals := Intervals(mode);
      var found := false;
      for i := 0 to |intervals|
        invariant found <==> pitchClass in intervals[..i]
      {
        assert intervals[..i + 1] == intervals[..i] + [intervals[i]];
        if pitchClass == intervals[i] { found := true; }
      }
      assert intervals[..|intervals|] == intervals;
      if found { notes := notes + [note as int]; }
      note := note + 1;
    }
    assert maximum < minimum ==> ScaleNotes(mode, root, minimum, maximum) == [];
  }

  lemma RemainderAgrees(note: nat, root: nat, pitchClass: int)
    requires var r := if note >= root then (note - root) % 12 else -((root - note) % 12);
             pitchClass == if r < 0 then r + 12 else r
    ensures pitchClass == (note - root) % 12
  {
  }

  function Bit(b: bool): (n: nat) {
    if b then 1 else 0
  }

  // How many of `size` consecutive numbers satisfy a condition.
  function Count(member: int -> bool, low: int, size: nat): (n: nat) {
    if size == 0 then 0 else Count(member, low, size - 1) + Bit(member(low + size - 1))
  }

  lemma {:induction false} CountsSelected(member: int -> bool, low: int, size: nat)
    ensures |Select(member, low, low + size - 1)| == Count(member, low, size)
    decreases size
  {
    if size > 0 { CountsSelected(member, low, size - 1); }
  }

  // Two ascending sequences of the same numbers are the same.
  lemma {:induction false} AscendingIsUnique(a: seq<int>, b: seq<int>)
    requires Ascending(a) && Ascending(b) && forall n :: n in a <==> n in b
    ensures a == b
    decreases |a|
  {
    HasMember(a);
    HasMember(b);
    if a != [] && b != [] {
      var x, y := a[|a| - 1], b[|b| - 1];
      assert x in b && y in a;
      assert x == y;
      WithoutLast(a);
      WithoutLast(b);
      var front, rest := a[..|a| - 1], b[..|b| - 1];
      forall n ensures n in front <==> n in rest {
        assert n in a <==> n in b;
      }
      AscendingIsUnique(front, rest);
      assert a == a[..|a| - 1] + [x] && b == b[..|b| - 1] + [y];
    }
  }

  lemma HasMember(s: seq<int>)
    ensures s != [] ==> s[0] in s
  {
  }

  lemma WithoutLast(s: seq<int>)
    requires Ascending(s) && s != []
    ensures Ascending(s[..|s| - 1])
    ensures forall n :: n in s[..|s| - 1] <==> n in s && n != s[|s| - 1]
  {
    forall n | n in s && n != s[|s| - 1] ensures n in s[..|s| - 1] {
      var i :| 0 <= i < |s| && s[i] == n;
      assert s[..|s| - 1][i] == n;
    }
  }

  // The scale notes of the octave that starts at the root.
  function RootScale(mode: Mode, root: nat): (notes: seq<int>)
    requires ValidMode(mode)
    ensures |notes| == 7 && forall i | 0 <= i < 7 :: notes[i] == root + Intervals(mode)[i]
  {
    seq(7, i requires 0 <= i < 7 => (root + Intervals(mode)[i]) as int)
  }

  lemma IntervalsFit(mode: Mode)
    requires ValidMode(mode)
    ensures forall i, j | 0 <= i < j < 7 :: Intervals(mode)[i] < Intervals(mode)[j]
    ensures forall j | 0 <= j < 7 :: Intervals(mode)[j] < 12
  {
  }

  lemma InRootScale(mode: Mode, root: nat, n: int)
    requires ValidMode(mode)
    ensures n in RootScale(mode, root) <==> root <= n <= root + 11 && InMode(mode, n - root)
  {
    IntervalsFit(mode);
    ShiftedMember(Intervals(mode), RootScale(mode, root), root, n);
  }

  lemma ShiftedMember(intervals: seq<nat>, notes: seq<int>, root: nat, n: int)
    requires |intervals| == |notes| == 7 && forall j | 0 <= j < 7 :: intervals[j] < 12 && notes[j] == root + intervals[j]
    ensures n in notes <==> root <= n <= root + 11 && (n - root) % 12 in intervals
  {
    if n in notes {
      var i :| 0 <= i < 7 && notes[i] == n;
      assert intervals[i] in intervals;
    }
    if root <= n <= root + 11 && (n - root) % 12 in intervals {
      var i :| 0 <= i < 7 && intervals[i] == (n - root) % 12;
      assert notes[i] == n;
    }
  }

  lemma RootOctave(mode: Mode, root: nat)
    requires ValidMode(mode)
    ensures ScaleNotes(mode, root, root, root + 11) == RootScale(mode, root)
  {
    var notes := ScaleNotes(mode, root, root, root + 11);
    ScaleNotesAreTheScale(mode, root, root, root + 11);
    IntervalsFit(mode);
    forall n ensures n in RootScale(mode, root) <==> n in notes {
      InRootScale(mode, root, n);
    }
    AscendingIsUnique(notes, RootScale(mode, root));
  }

  ghost predicate Periodic(member: int -> bool) {
    forall n :: member(n + 12) == member(n)
  }

  lemma {:induction false} CountFromNext(member: int -> bool, low: int, size: nat)
    requires size > 0
    ensures Count(member, low, size) == Bit(member(low)) + Count(member, low + 1, size - 1)
    decreases size
  {
    if size > 1 { CountFromNext(member, low, size - 1); }
  }

  // Sliding a twelve-semitone window by one drops and adds the same pitch.
  lemma Slide(member: int -> bool, low: int)
    requires Periodic(member)
    ensures Count(member, low + 1, 12) == Count(member, low, 12)
  {
    CountFromNext(member, low, 12);
    assert member(low + 12) == member(low);
    assert Count(member, low + 1, 12) == Count(member, low + 1, 11) + Bit(member(low + 12));
  }

  lemma {:induction false} SlideAnywhere(member: int -> bool, low: int, other: int)
    requires Periodic(member)
    ensures Count(member, other, 12) == Count(member, low, 12)
    decreases if low < other then other - low else low - other
  {
    if low < other {
      SlideAnywhere(member, low, other - 1);
      Slide(member, other - 1);
    } else if other < low {
      SlideAnywhere(member, low, other + 1);
      Slide(member, other);
    }
  }

  lemma ScalesArePeriodic(mode: Mode, root: nat)
    requires ValidMode(mode)
    ensures Periodic(InScale(mode, root))
  {
    forall n ensures InScale(mode, root)(n + 12) == InScale(mode, root)(n) {
      assert (n + 12 - root) % 12 == (n - root) % 12;
    }
  }

  // Any twelve consecutive semitones hold exactly seven scale notes.
  lemma SevenNotesPerOctave(mode: Mode, root: nat, minimum: int)
    requires ValidMode(mode)
    ensures |ScaleNotes(mode, root, minimum, minimum + 11)| == 7
  {
    CountsSelected(InScale(mode, root), minimum, 12);
    CountsSelected(InScale(mode, root), root, 12);
    ScalesArePeriodic(mode, root);
    SlideAnywhere(InScale(mode, root), root, minimum);
    RootOctave(mode, root);
  }

  lemma NoWideGap(mode: Mode, distance: int)
    requires ValidMode(mode)
    ensures InMode(mode, distance) || InMode(mode, distance + 1)
  {
    var pitch := distance % 12;
    assert (distance + 1) % 12 == if pitch == 11 then 0 else pitch + 1;
  }

  // A range has no scale note exactly if it is a single note off the scale.
  lemma EmptyScale(mode: Mode, root: nat, minimum: int, maximum: int)
    requires ValidMode(mode) && minimum <= maximum
    ensures ScaleNotes(mode, root, minimum, maximum) == [] <==> minimum == maximum && !InMode(mode, minimum - root)
  {
    ScaleNotesAreTheScale(mode, root, minimum, maximum);
    var notes := ScaleNotes(mode, root, minimum, maximum);
    if minimum < maximum {
      NoWideGap(mode, minimum - root);
      assert minimum in notes || minimum + 1 in notes;
    } else {
      assert notes != [] ==> notes[0] in notes;
    }
  }

  // At or above the root, the scale is what the degrees of the mode describe.
  lemma ScaleFollowsDegrees(mode: Mode, distance: nat)
    requires ValidMode(mode)
    ensures InMode(mode, distance) <==> exists degree: nat :: Modes.Interval(mode, degree) == Some(distance)
  {
    IntervalsFit(mode);
    DegreesReach(Intervals(mode), distance);
    assert forall degree: nat :: Modes.Interval(mode, degree) == Some((degree / 7) * 12 + Intervals(mode)[degree % 7]);
    if InMode(mode, distance) {
      var degree: nat :| (degree / 7) * 12 + Intervals(mode)[degree % 7] == distance;
      assert Modes.Interval(mode, degree) == Some(distance);
    }
  }

  lemma DegreeSplits(octaves: nat, j: nat)
    requires j < 7
    ensures (7 * octaves + j) / 7 == octaves && (7 * octaves + j) % 7 == j
  {
  }

  lemma DistanceSplits(octaves: nat, interval: nat)
    requires interval < 12
    ensures (octaves * 12 + interval) % 12 == interval
  {
  }

  lemma DegreesReach(intervals: seq<nat>, distance: nat)
    requires |intervals| == 7 && forall j | 0 <= j < 7 :: intervals[j] < 12
    ensures distance % 12 in intervals <==> exists degree: nat :: (degree / 7) * 12 + intervals[degree % 7] == distance
  {
    if distance % 12 in intervals {
      var j :| 0 <= j < 7 && intervals[j] == distance % 12;
      DegreeSplits(distance / 12, j);
      var degree: nat := 7 * (distance / 12) + j;
      assert (degree / 7) * 12 + intervals[degree % 7] == distance;
    }
    if degree: nat :| (degree / 7) * 12 + intervals[degree % 7] == distance {
      DistanceSplits(degree / 7, intervals[degree % 7]);
    }
  }

  // ---------------------------------------------------------------- durations

  const QUANTUM: int := 25 * MILLISECOND

  function Quantized(interArrival: int, minimum: int, maximum: int): (duration: int) {
    if interArrival <= 0 then minimum
    else
      var duration := ((interArrival + QUANTUM / 2) / QUANTUM) * QUANTUM;
      if duration < minimum then minimum else if duration > maximum then maximum else duration
  }

  // The duration is the nearest multiple of the quantum, rounding up at the
  // middle, cut to the range; without a gap it is the shortest; and a longer
  // gap never gives a shorter note.
  lemma QuantizedIsNearest(interArrival: int, later: int, minimum: int, maximum: int, multiple: int)
    requires 0 < minimum <= maximum
    ensures minimum <= Quantized(interArrival, minimum, maximum) <= maximum
    ensures var d := Quantized(interArrival, minimum, maximum);
            interArrival > 0 && minimum < d < maximum ==>
              && d % QUANTUM == 0
              && Distance(d, interArrival) <= Distance(multiple * QUANTUM, interArrival)
    ensures interArrival <= later ==> Quantized(interArrival, minimum, maximum) <= Quantized(later, minimum, maximum)
    ensures interArrival <= 0 ==> Quantized(interArrival, minimum, maximum) == minimum
    ensures var nearest := multiple * QUANTUM;
            interArrival > 0 && nearest - QUANTUM / 2 <= interArrival < nearest + QUANTUM / 2 ==>
              Quantized(interArrival, minimum, maximum) ==
              if nearest < minimum then minimum else if nearest > maximum then maximum else nearest
  {
    QuantizedIsRounded(interArrival, minimum, maximum);
    QuantizedIsRounded(later, minimum, maximum);
    Nearest(interArrival, multiple);
    RoundsTo(interArrival, multiple);
    if interArrival <= later { RoundedGrows(interArrival, later); }
  }

  lemma QuantizedIsRounded(x: int, minimum: int, maximum: int)
    requires 0 < minimum <= maximum
    ensures Quantized(x, minimum, maximum) ==
            if x <= 0 || Rounded(x) < minimum then minimum else if Rounded(x) > maximum then maximum else Rounded(x)
  {
  }

  lemma RoundsTo(x: int, multiple: int)
    ensures multiple * QUANTUM - QUANTUM / 2 <= x < multiple * QUANTUM + QUANTUM / 2 ==> Rounded(x) == multiple * QUANTUM
  {
    var q := (x + QUANTUM / 2) / QUANTUM;
    assert q * QUANTUM <= x + QUANTUM / 2 < q * QUANTUM + QUANTUM;
  }

  function Distance(a: int, b: int): (d: nat) {
    if a < b then b - a else a - b
  }

  function Rounded(x: int): (r: int) {
    ((x + QUANTUM / 2) / QUANTUM) * QUANTUM
  }

  lemma Nearest(x: int, multiple: int)
    ensures Rounded(x) % QUANTUM == 0 && Distance(Rounded(x), x) <= Distance(multiple * QUANTUM, x)
  {
    var q := (x + QUANTUM / 2) / QUANTUM;
    assert x - QUANTUM / 2 <= q * QUANTUM <= x + QUANTUM / 2;
    if multiple > q {
      assert multiple * QUANTUM >= q * QUANTUM + QUANTUM;
    } else if multiple < q {
      assert multiple * QUANTUM <= q * QUANTUM - QUANTUM;
    }
  }

  lemma RoundedGrows(x: int, y: int)
    requires x <= y
    ensures Rounded(x) <= Rounded(y)
  {
    assert (x + QUANTUM / 2) / QUANTUM <= (y + QUANTUM / 2) / QUANTUM;
  }

  // ------------------------------------------------------------------ mapping

  datatype MapperConfig = MapperConfig(
    seed: string, origin: string, minimumNote: nat, maximumNote: nat, minimumDuration: Duration, maximumDuration: Duration)

  predicate ValidMapper(c: MapperConfig) {
    && c.seed != "" && c.origin != ""
    && c.minimumNote <= c.maximumNote <= 127
    && 0 < c.minimumDuration <= c.maximumDuration
  }

  datatype MapInput = MapInput(packet: Event, sequence: nat, interArrival: int, channel: nat, mode: string, root: nat)

  // The hashes and the loudness curve of the program.
  datatype Oracle = Oracle(
    identify: (string, Key) -> string,
    digest: string -> (nat, nat),
    loudness: int -> nat)

  function ProtocolOffset(p: Protocol): (offset: nat) {
    match p
    case Tcp => 0
    case Udp => 2
    case Icmp => 4
    case Icmp6 => 4
    case _ => 6
  }

  function FlagOffset(flags: set<TcpFlag>): (offset: nat) {
    (if Syn in flags then 1 else 0) + (if Fin in flags then 2 else 0) + (if Rst in flags then 3 else 0)
  }

  // The curve rises from 1; control packets are louder; MIDI ends at 127.
  function Velocity(oracle: Oracle, wireLength: int, flags: set<TcpFlag>): (velocity: nat)
    ensures 1 <= velocity <= 127
  {
    var base := 1 + oracle.loudness(wireLength) + (if Syn in flags || Fin in flags || Rst in flags then 10 else 0);
    if base > 127 then 127 else base
  }

  function Identity(oracle: Oracle, flowId: string): (identity: Option<(Mode, nat)>)
    ensures identity.Some? ==> ValidMode(identity.value.0) && identity.value.1 < 12
  {
    if !HexId(flowId) then None
    else
      var (first, second) := oracle.digest(flowId);
      Some((first % MODE_COUNT, second % 12))
  }

  function EventId(origin: string, flowId: string, sequence: nat): (id: string) {
    origin + ":" + flowId + ":" + Itoa(sequence)
  }

  // The fixed identity of the rule, or the one hashed from the flow.
  function ChosenIdentity(oracle: Oracle, input: MapInput, flowId: string): (identity: Option<(Mode, nat)>)
    ensures identity.Some? ==> ValidMode(identity.value.0) && identity.value.1 < 12
  {
    var own := Identity(oracle, flowId);
    if own.None? then None
    else if input.mode == "" then own
    else
      var fixed := ParseMode(input.mode);
      ParseFromFinds(input.mode, 0);
      if fixed.None? || input.root > 11 then None else Some((fixed.value, input.root))
  }

  function ChosenNote(candidates: seq<int>, packet: Event, direction: Direction): (note: int)
    requires candidates != [] && packet.wireLength >= 0
  {
    var index := packet.wireLength + ProtocolOffset(packet.protocol) + FlagOffset(packet.flags)
                 + (if direction == BToA then (|candidates| + 1) / 2 else 0);
    candidates[index % |candidates|]
  }

  // The event that plays a note.
  function EventWith(c: MapperConfig, oracle: Oracle, input: MapInput, flowId: string, mode: Mode, root: nat, note: nat)
    : (event: NoteEvent)
    requires ValidMapper(c)
    ensures c.minimumDuration <= event.duration <= c.maximumDuration && 1 <= event.velocity <= 127
  {
    NoteEvent(EventId(c.origin, flowId, input.sequence), c.origin, input.sequence, FLOW_MODE_V1, flowId,
              mode, root, note,
              Velocity(oracle, input.packet.wireLength, input.packet.flags),
              Quantized(input.interArrival, c.minimumDuration, c.maximumDuration), input.channel,
              input.packet.capturedAt)
  }

  // The event for a flow with a known identity.
  function MapAs(c: MapperConfig, oracle: Oracle, input: MapInput, flowId: string, direction: Direction,
                 mode: Mode, root: nat): (event: Option<NoteEvent>)
    requires ValidMapper(c) && ValidMode(mode) && input.packet.wireLength >= 0
  {
    MapOver(ScaleNotes(mode, root, c.minimumNote, c.maximumNote), c, oracle, input, flowId, direction, mode, root)
  }

  function MapOver(candidates: seq<int>, c: MapperConfig, oracle: Oracle, input: MapInput, flowId: string, direction: Direction,
                   mode: Mode, root: nat): (event: Option<NoteEvent>)
    requires ValidMapper(c) && ValidMode(mode) && input.packet.wireLength >= 0
  {
    if candidates == [] then None
    else
      var note := ChosenNote(candidates, input.packet, direction);
      if note < 0 then None
      else
        var e := EventWith(c, oracle, input, flowId, mode, root, note);
        if ValidNote(e) then Some(e) else None
  }

  function Map(c: MapperConfig, oracle: Oracle, input: MapInput): (event: Option<NoteEvent>)
    requires ValidMapper(c)
  {
    if !ValidEvent(input.packet) || input.channel < 1 || input.channel > 16 then None
    else
      var (key, direction) := Canonicalize(input.packet);
      var flowId := oracle.identify(c.seed, key);
      var identity := ChosenIdentity(oracle, input, flowId);
      if identity.None? then None
      else MapAs(c, oracle, input, flowId, direction, identity.value.0, identity.value.1)
  }

  lemma ChosenIsCandidate(candidates: seq<int>, packet: Event, direction: Direction)
    requires candidates != [] && packet.wireLength >= 0
    ensures ChosenNote(candidates, packet, direction) in candidates
  {
  }

  // The identity a packet is mapped with, if it can be mapped at all.
  function MappedIdentity(c: MapperConfig, oracle: Oracle, input: MapInput): (identity: Option<(Mode, nat)>)
    ensures identity.Some? ==> ValidMode(identity.value.0) && identity.value.1 < 12
  {
    if !ValidEvent(input.packet) || input.channel < 1 || input.channel > 16 then None
    else ChosenIdentity(oracle, input, oracle.identify(c.seed, Canonicalize(input.packet).0))
  }

  lemma MapIsMapAs(c: MapperConfig, oracle: Oracle, input: MapInput)
    requires ValidMapper(c)
    ensures var identity := MappedIdentity(c, oracle, input);
            && (identity.None? ==> Map(c, oracle, input) == None)
            && (identity.Some? ==>
                  var (key, direction) := Canonicalize(input.packet);
                  Map(c, oracle, input) ==
                  MapAs(c, oracle, input, oracle.identify(c.seed, key), direction, identity.value.0, identity.value.1))
  {
  }

  // Mapping succeeds exactly for valid packets on a real channel whose
  // identity is well formed and whose scale has a note in range; the note then
  // lies in range and in scale and the event is valid.
  lemma MappingIsTotal(c: MapperConfig, oracle: Oracle, input: MapInput)
    requires ValidMapper(c)
    ensures var identity := MappedIdentity(c, oracle, input);
            && (identity.None? ==> Map(c, oracle, input).None?)
            && (identity.Some? ==> MapsWell(Map(c, oracle, input), c, input, identity.value.0, identity.value.1))
  {
    MapIsMapAs(c, oracle, input);
    var identity := MappedIdentity(c, oracle, input);
    if identity.Some? {
      var (key, direction) := Canonicalize(input.packet);
      MappingAs(c, oracle, input, oracle.identify(c.seed, key), direction, identity.value.0, identity.value.1);
    }
  }

  // There is an event exactly if the scale has a note in range; it is valid,
  // bears the identity and the channel, and note and duration are in range.
  ghost predicate MapsWell(event: Option<NoteEvent>, c: MapperConfig, input: MapInput, mode: Mode, root: nat)
    requires ValidMode(mode)
  {
    && (event.Some? <==> c.minimumNote < c.maximumNote || InMode(mode, c.minimumNote - root))
    && (event.Some? ==>
          && ValidNote(event.value) && event.value.mode == mode && event.value.root == root
          && FitsScale(event.value.note, c, mode, root)
          && c.minimumDuration <= event.value.duration <= c.maximumDuration
          && event.value.channel == input.channel)
  }

  // In range and in scale.
  ghost predicate FitsScale(note: int, c: MapperConfig, mode: Mode, root: nat)
    requires ValidMode(mode)
  {
    c.minimumNote <= note <= c.maximumNote && InMode(mode, note - root)
  }

  ghost predicate AllFit(candidates: seq<int>, c: MapperConfig, mode: Mode, root: nat)
    requires ValidMode(mode)
  {
    forall i | 0 <= i < |candidates| :: FitsScale(candidates[i], c, mode, root)
  }

  lemma CandidatesFit(c: MapperConfig, mode: Mode, root: nat)
    requires ValidMode(mode)
    ensures AllFit(ScaleNotes(mode, root, c.minimumNote, c.maximumNote), c, mode, root)
  {
    var candidates := ScaleNotes(mode, root, c.minimumNote, c.maximumNote);
    ScaleNotesAreTheScale(mode, root, c.minimumNote, c.maximumNote);
    forall i | 0 <= i < |candidates|
      ensures FitsScale(candidates[i], c, mode, root)
    {
      assert candidates[i] in candidates;
    }
  }

  // One of the candidates is played, on the channel and with a duration in
  // range.
  lemma MappingOver(candidates: seq<int>, c: MapperConfig, oracle: Oracle, input: MapInput, flowId: string, direction: Direction,
                    mode: Mode, root: nat)
    requires ValidMapper(c) && ValidMode(mode) && root < 12 && input.packet.wireLength >= 0 && 1 <= input.channel <= 16
    requires AllFit(candidates, c, mode, root)
    ensures var event := MapOver(candidates, c, oracle, input, flowId, direction, mode, root);
            && (event.Some? <==> candidates != [])
            && (event.Some? ==>
                  && ValidNote(event.value) && event.value.mode == mode && event.value.root == root
                  && FitsScale(event.value.note, c, mode, root)
                  && c.minimumDuration <= event.value.duration <= c.maximumDuration
                  && event.value.channel == input.channel)
  {
    if candidates != [] { ChosenIsCandidate(candidates, input.packet, direction); }
  }

  lemma MappingAs(c: MapperConfig, oracle: Oracle, input: MapInput, flowId: string, direction: Direction, mode: Mode, root: nat)
    requires ValidMapper(c) && ValidMode(mode) && root < 12 && input.packet.wireLength >= 0 && 1 <= input.channel <= 16
    ensures MapsWell(MapAs(c, oracle, input, flowId, direction, mode, root), c, input, mode, root)
  {
    var candidates := ScaleNotes(mode, root, c.minimumNote, c.maximumNote);
    EmptyScale(mode, root, c.minimumNote, c.maximumNote);
    CandidatesFit(c, mode, root);
    MappingOver(candidates, c, oracle, input, flowId, direction, mode, root);
  }

  lemma ShiftedIndexDiffers(index: nat, n: nat)
    requires n >= 2
    ensures index % n != (index + (n + 1) / 2) % n
  {
    var shift := (n + 1) / 2;
    assert 0 < shift < n;
    var q: nat, r: nat := index / n, index % n;
    if r + shift < n {
      assert index + shift == n * q + (r + shift);
      RemainderIs(index + shift, n, q, r + shift);
    } else {
      assert index + shift == n * (q + 1) + (r + shift - n);
      RemainderIs(index + shift, n, q + 1, r + shift - n);
    }
  }

  lemma RemainderIs(x: int, n: nat, q: int, r: int)
    requires n > 0 && 0 <= r < n && x == n * q + r
    ensures x % n == r
  {
    var d := x / n - q;
    assert n * d == r - x % n;
    Multiples(n, d);
  }

  lemma Multiples(n: int, d: int)
    requires n >= 0
    ensures d >= 1 ==> n * d >= n
    ensures d <= -1 ==> n * d <= -n
  {
  }

  lemma AscendingAreDistinct(s: seq<int>, i: nat, j: nat)
    requires Ascending(s) && i < |s| && j < |s| && i != j
    ensures s[i] != s[j]
  {
  }

  // The same packet shape in the two directions of a flow gives different
  // notes whenever there are at least two to choose from.
  lemma DirectionsSoundDifferent(candidates: seq<int>, packet: Event)
    requires |candidates| >= 2 && Ascending(candidates) && packet.wireLength >= 0
    ensures ChosenNote(candidates, packet, AToB) != ChosenNote(candidates, packet, BToA)
  {
    var index := packet.wireLength + ProtocolOffset(packet.protocol) + FlagOffset(packet.flags);
    ShiftedIndexDiffers(index, |candidates|);
    AscendingAreDistinct(candidates, index % |candidates|, (index + (|candidates| + 1) / 2) % |candidates|);
  }

  // The whole mapping: a packet and its reverse belong to one flow with one
  // musical identity, and sound different unless the flow talks to itself.
  lemma ReversedPacketSoundsDifferent(c: MapperConfig, oracle: Oracle, input: MapInput, reply: MapInput)
    requires ValidMapper(c) && reply.packet == Reverse(input.packet) && input.packet.source != input.packet.destination
    requires reply.mode == input.mode && reply.root == input.root
    requires Map(c, oracle, input).Some? && Map(c, oracle, reply).Some?
    ensures var a, b := Map(c, oracle, input).value, Map(c, oracle, reply).value;
            && a.flowId == b.flowId && a.mode == b.mode && a.root == b.root
            && (|ScaleNotes(a.mode, a.root, c.minimumNote, c.maximumNote)| >= 2 ==> a.note != b.note)
  {
    CanonicalKeyIgnoresDirection(input.packet);
    MappedShape(c, oracle, input);
    MappedShape(c, oracle, reply);
    var a := Map(c, oracle, input).value;
    DirectionsOverScale(a.mode, a.root, c.minimumNote, c.maximumNote, input.packet);
  }

  // Where the parts of a mapped event come from.
  lemma MappedShape(c: MapperConfig, oracle: Oracle, input: MapInput)
    requires ValidMapper(c) && Map(c, oracle, input).Some?
    ensures var e := Map(c, oracle, input).value;
            var (key, direction) := Canonicalize(input.packet);
            && e.flowId == oracle.identify(c.seed, key) && input.packet.wireLength >= 0 && ValidMode(e.mode)
            && ChosenIdentity(oracle, input, e.flowId) == Some((e.mode, e.root))
            && ScaleNotes(e.mode, e.root, c.minimumNote, c.maximumNote) != []
            && e.note == ChosenNote(ScaleNotes(e.mode, e.root, c.minimumNote, c.maximumNote), input.packet, direction)
  {
  }

  lemma DirectionsOverScale(mode: Mode, root: nat, minimum: int, maximum: int, packet: Event)
    requires ValidMode(mode) && packet.wireLength >= 0
    ensures var notes := ScaleNotes(mode, root, minimum, maximum);
            |notes| >= 2 ==>
              && ChosenNote(notes, packet, AToB) != ChosenNote(notes, Reverse(packet), BToA)
              && ChosenNote(notes, packet, BToA) != ChosenNote(notes, Reverse(packet), AToB)
  {
    ScaleNotesAreTheScale(mode, root, minimum, maximum);
    var notes := ScaleNotes(mode, root, minimum, maximum);
    if |notes| >= 2 {
      DirectionsSoundDifferent(notes, packet);
      DirectionsSoundDifferent(notes, Reverse(packet));
    }
  }

  // Under one origin an event identifier determines its flow and sequence.
  lemma EventIdsIdentify(origin: string, flowA: string, m: nat, flowB: string, n: nat)
    requires HexId(flowA) && HexId(flowB)
    ensures EventId(origin, flowA, m) == EventId(origin, flowB, n) <==> flowA == flowB && m == n
  {
    var a, b := EventId(origin, flowA, m), EventId(origin, flowB, n);
    var k := |origin| + 1;
    assert a[k..k + 24] == flowA && b[k..k + 24] == flowB;
    assert a[k + 25..] == Itoa(m) && b[k + 25..] == Itoa(n);
    AtoiItoa(m);
    AtoiItoa(n);
  }
}
