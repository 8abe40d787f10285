// The seven diatonic modes: names, intervals and scale membership.
module Modes {
  import opened Common

  // A mode is its index in the stable mapping order; other values are invalid.
  type Mode = nat

  const MODE_COUNT: nat := 7

  const MODE_NAMES: seq<string> :=
    ["ionian", "dorian", "phrygian", "lydian", "mixolydian", "aeolian", "locrian"]

  predicate ValidMode(mode: Mode) {
    mode < MODE_COUNT
  }

  function ModeName(mode: Mode): (name: string)
    requires ValidMode(mode)
  {
    MODE_NAMES[mode]
  }

  function ParseFrom(value: string, mode: Mode): (parsed: Option<Mode>)
    requires mode <= MODE_COUNT
    decreases MODE_COUNT - mode
  {
    if mode == MODE_COUNT then None
    else if value == MODE_NAMES[mode] then Some(mode)
    else ParseFrom(value, mode + 1)
  }

  function ParseMode(value: string): (parsed: Option<Mode>) {
    ParseFrom(value, 0)
  }

  lemma {:induction false} ParseFromFinds(value: string, mode: Mode)
    requires mode <= MODE_COUNT
    ensures ParseFrom(value, mode).Some? ==>
              mode <= ParseFrom(value, mode).value < MODE_COUNT && MODE_NAMES[ParseFrom(value, mode).value] == value
    ensures ParseFrom(value, mode).None? ==> forall m | mode <= m < MODE_COUNT :: MODE_NAMES[m] != value
    decreases MODE_COUNT - mode
  {
    if mode < MODE_COUNT { ParseFromFinds(value, mode + 1); }
  }

  lemma NamesDiffer(a: Mode, b: Mode)
    requires ValidMode(a) && ValidMode(b) && ModeName(a) == ModeName(b)
    ensures a == b
  {
    assert ModeName(0)[0] == 'i' && ModeName(1)[0] == 'd' && ModeName(2)[0] == 'p' && ModeName(5)[0] == 'a';
    assert ModeName(4)[0] == 'm' && ModeName(3)[1] == 'y' && ModeName(6)[1] == 'o' && ModeName(3)[0] == 'l';
    assert ModeName(6)[0] == 'l';
  }

  // Parsing and naming are inverse, and exactly the seven names parse.
  lemma ModeRoundTrip(mode: Mode, value: string)
    ensures ValidMode(mode) ==> ParseMode(ModeName(mode)) == Some(mode)
    ensures ParseMode(value).Some? <==> value in MODE_NAMES
    ensures ParseMode(value).Some? ==> ValidMode(ParseMode(value).value) && ModeName(ParseMode(value).value) == value
  {
    ParseFromFinds(value, 0);
    if ValidMode(mode) {
      ParseFromFinds(ModeName(mode), 0);
      NamesDiffer(mode, ParseMode(ModeName(mode)).value);
    }
  }

  // ---------------------------------------------------------------- intervals

  function Intervals(mode: Mode): (intervals: seq<nat>)
    requires ValidMode(mode)
    ensures |intervals| == 7
  {
    if mode == 0 then [0, 2, 4, 5, 7, 9, 11]
    else if mode == 1 then [0, 2, 3, 5, 7, 9, 10]
    else if mode == 2 then [0, 1, 3, 5, 7, 8, 10]
    else if mode == 3 then [0, 2, 4, 6, 7, 9, 11]
    else if mode == 4 then [0, 2, 4, 5, 7, 9, 10]
    else if mode == 5 then [0, 2, 3, 5, 7, 8, 10]
    else [0, 1, 3, 5, 6, 8, 10]
  }

  // The semitones above the root of a scale degree; degrees wrap every seven
  // steps and advance an octave.
  function Interval(mode: Mode, degree: int): (semitones: Option<nat>) {
    if !ValidMode(mode) || degree < 0 then None
    else Some((degree / 7) * 12 + Intervals(mode)[degree % 7])
  }

  // The steps of the major scale in semitones.
  const MAJOR_STEPS: seq<nat> := [2, 2, 1, 2, 2, 2, 1]

  // The modes are the rotations of the major scale: the steps of mode m are
  // those of the major scale from its m-th degree on.
  lemma ModesRotateTheMajorScale(mode: Mode, degree: nat)
    requires ValidMode(mode) && degree < 7
    ensures Intervals(mode)[0] == 0
    ensures (if degree == 6 then 12 else Intervals(mode)[degree + 1]) - Intervals(mode)[degree]
            == MAJOR_STEPS[(mode + degree) % 7]
  {
    assert mode == 0 || mode == 1 || mode == 2 || mode == 3 || mode == 4 || mode == 5 || mode == 6;
    assert degree == 0 || degree == 1 || degree == 2 || degree == 3 || degree == 4 || degree == 5 || degree == 6;
  }
}
