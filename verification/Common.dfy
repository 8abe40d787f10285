// Small value types and counting facts shared by every component.
module Common {
  datatype Option<+T> = None | Some(value: T)

  type Byte = b: int | 0 <= b < 256

  // A flow's identifier, empty for none.
  type FlowId = string

  // The white space that the program trims.
  predicate White(c: char) {
    || 0x09 <= c as int <= 0x0d || c == ' ' || c as int in [0x85, 0xa0, 0x1680]
    || 0x2000 <= c as int <= 0x200a || c as int in [0x2028, 0x2029, 0x202f, 0x205f, 0x3000]
  }

  predicate Blank(text: string) {
    forall c | c in text :: White(c)
  }

  ghost predicate Ascending(s: seq<int>) {
    forall i, j | 0 <= i < j < |s| :: s[i] < s[j]
  }

  lemma {:induction false} SubsetSize<T>(part: set<T>, whole: set<T>)
    requires part <= whole
    ensures |part| <= |whole|
    decreases |part|
  {
    if part != {} {
      var x :| x in part;
      SubsetSize(part - {x}, whole - {x});
    }
  }

  // The natural numbers low, low + 1, ..., low + size - 1.
  ghost function Interval(low: nat, size: nat): (interval: set<nat>)
    ensures |interval| == size
    ensures forall i: nat :: i in interval <==> low <= i < low + size
  {
    if size == 0 then {} else Interval(low, size - 1) + {low + size - 1}
  }

  lemma {:induction false} Least(numbers: set<nat>) returns (least: nat)
    requires numbers != {}
    ensures least in numbers && forall i | i in numbers :: least <= i
    decreases |numbers|
  {
    var some :| some in numbers;
    if numbers == {some} {
      least := some;
    } else {
      var rest := numbers - {some};
      assert numbers == rest + {some};
      var below := Least(rest);
      least := if below < some then below else some;
    }
  }

  function Pow2(n: nat): (power: nat)
    ensures power > 0
  {
    if n == 0 then 1 else 2 * Pow2(n - 1)
  }
}
