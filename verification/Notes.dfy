// Transport-independent note triggers and their validity.
module Notes {
  import opened Modes

  const FLOW_MODE_V1 := "flow-mode-v1"

  const MILLISECOND: int := 1000000

  const MAX_INT64: int := 0x7fff_ffff_ffff_ffff

  // A signed 64-bit number of nanoseconds.
  type Duration = d: int | -MAX_INT64 - 1 <= d <= MAX_INT64

  datatype NoteEvent = NoteEvent(
    id: string,
    origin: string,
    sequence: nat,
    mappingVersion: string,
    flowId: string,
    mode: Mode,
    root: nat,
    note: nat,
    velocity: nat,
    duration: Duration,
    channel: nat,
    createdAt: int)

  predicate ValidNote(e: NoteEvent) {
    && e.id != "" && e.origin != ""
    && ValidMode(e.mode) && e.root <= 11
    && e.note <= 127 && 1 <= e.velocity <= 127
    && 1 <= e.channel <= 16 && e.duration > 0
  }
}
