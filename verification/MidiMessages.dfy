// MIDI 1.0 messages: the three builders of the program, and what a receiver
// makes of the bytes it is handed (Channel Voice and Channel Mode messages of
// the MIDI 1.0 Detailed Specification).
module MidiMessages {
  import opened Common

  // One pitch on one user-facing channel.
  datatype Pitch = Pitch(channel: int, note: int)

  predicate ValidPitch(pitch: Pitch) {
    ValidChannel(pitch.channel) && 0 <= pitch.note <= 127
  }

  type NoteKey = pitch: Pitch | ValidPitch(pitch) witness Pitch(1, 0)

  // The meaning of a message to the device that receives it.
  datatype Command =
    | On(key: NoteKey, velocity: int)
    | Off(key: NoteKey)
    | ChannelOff(channel: int)
    | Other

  predicate ValidChannel(channel: int) {
    1 <= channel <= 16
  }

  // The status byte: kind in the high nibble, zero-based channel in the low
  // one. The program writes a bitwise or; OrIsSum shows the sum is the same.
  function Status(kind: Byte, channel: int): (status: int)
    requires ValidChannel(channel)
  {
    kind + (channel - 1)
  }

  lemma OrIsSum(low: bv8)
    requires low < 16
    ensures 0x90 | low == 0x90 + low
    ensures 0x80 | low == 0x80 + low
    ensures 0xB0 | low == 0xB0 + low
  {
  }

  function NoteOn(channel: Byte, note: Byte, velocity: Byte): (message: Option<seq<Byte>>) {
    if !ValidChannel(channel) || note > 127 || velocity == 0 || velocity > 127 then None
    else Some([Status(0x90, channel), note, velocity])
  }

  function NoteOff(channel: Byte, note: Byte): (message: Option<seq<Byte>>) {
    if !ValidChannel(channel) || note > 127 then None
    else Some([Status(0x80, channel), note, 0])
  }

  function AllNotesOff(channel: Byte): (message: Option<seq<Byte>>) {
    if !ValidChannel(channel) then None
    else Some([Status(0xB0, channel), 123, 0])
  }

  // The receiver's reading of a message, independent of the builders: a Note
  // On with velocity zero is a Note Off, controllers 120 and up are Channel
  // Mode messages and 123 is All Notes Off.
  function Understand(message: seq<Byte>): (command: Command) {
    if |message| != 3 || message[1] > 127 || message[2] > 127 then Other
    else
      var channel := message[0] % 16 + 1;
      var kind := message[0] / 16;
      if kind == 9 && message[2] > 0 then On(Pitch(channel, message[1]), message[2])
      else if kind == 9 || kind == 8 then Off(Pitch(channel, message[1]))
      else if kind == 11 && message[1] == 123 then ChannelOff(channel)
      else Other
  }

  // Each builder succeeds exactly on the documented ranges, and a receiver
  // understands the message as it was meant.
  lemma BuildersAreUnderstood(channel: Byte, note: Byte, velocity: Byte)
    ensures NoteOn(channel, note, velocity).Some? <==>
            ValidPitch(Pitch(channel, note)) && 1 <= velocity <= 127
    ensures NoteOff(channel, note).Some? <==> ValidPitch(Pitch(channel, note))
    ensures AllNotesOff(channel).Some? <==> ValidChannel(channel)
    ensures NoteOn(channel, note, velocity).Some? ==>
              Understand(NoteOn(channel, note, velocity).value) == On(Pitch(channel, note), velocity)
    ensures NoteOff(channel, note).Some? ==>
              Understand(NoteOff(channel, note).value) == Off(Pitch(channel, note))
    ensures AllNotesOff(channel).Some? ==>
              Understand(AllNotesOff(channel).value) == ChannelOff(channel)
  {
    if ValidChannel(channel) {
      StatusSplits(0x90, channel);
      StatusSplits(0x80, channel);
      StatusSplits(0xB0, channel);
    }
  }

  lemma StatusSplits(kind: Byte, channel: int)
    requires ValidChannel(channel)
    requires kind % 16 == 0
    ensures Status(kind, channel) / 16 == kind / 16
    ensures Status(kind, channel) % 16 + 1 == channel
  {
  }
}
