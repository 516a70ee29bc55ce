/**
 Register-level decoding shared by the sensors: the inverter sends power
 readings as unsigned 16-bit words and operating modes as small codes.
 */
module Registers {

  /** Unsigned 16-bit register words. */
  const WordSize: int := 65536
  /** First word value that reads as negative. */
  const SignBit: int := 32768

  /** The 16-bit register word the inverter transmits for a signed reading `s` (two's complement). */
  function Wrap16(s: int): (u: int)
    ensures 0 <= u < WordSize
    ensures (s - u) % WordSize == 0
  {
    s % WordSize
  }

  /**
   The sign fix applied to an already scaled power reading `v`: readings from
   32768 upward are taken as negative. It is applied after the division, on
   `real`s, as the bridge does.
   */
  function SignFix(v: real): (r: real)
    ensures r == v || r == v - WordSize as real
    ensures r == v <==> v < SignBit as real
    ensures 0.0 <= v < WordSize as real ==> -(SignBit as real) <= r < SignBit as real
  {
    if v < SignBit as real then v else v - WordSize as real
  }

  /** Every signed 16-bit reading survives the round trip through its register word. */
  lemma SignFixDecodesWrap(s: int)
    requires -SignBit <= s < SignBit
    ensures SignFix(Wrap16(s) as real) == s as real
  {
    if s < 0 {
      assert Wrap16(s) == s + WordSize;
    } else {
      assert Wrap16(s) == s;
    }
  }

  /**
   Every register word decodes to a whole signed 16-bit reading that wraps back
   to the same word: with the lemma above, the sign fix is a bijection from
   [0, 65536) onto [-32768, 32768).
   */
  lemma SignFixEncodesBack(u: int)
    requires 0 <= u < WordSize
    ensures var r := SignFix(u as real);
      && r == r.Floor as real
      && -SignBit <= r.Floor < SignBit
      && Wrap16(r.Floor) == u
  {
    var r := SignFix(u as real);
    if u < SignBit {
      assert r.Floor == u;
    } else {
      assert r.Floor == u - WordSize;
    }
  }

  /** Operating-mode codes and their labels. */
  const StatusMap: map<int, string> := map[
    0 := "Waiting",
    1 := "Checking",
    2 := "Normal",
    3 := "Off",
    4 := "Permanent Fault",
    5 := "Updating",
    6 := "EPS Check",
    7 := "EPS Mode",
    8 := "Self Test",
    9 := "Idle",
    10 := "Standby"
  ]

  /** Label of codes outside the table. */
  const UnknownStatus: string := "Unknown"

  /** True when the number `v` equals the whole number `k` (a float key matching an int key). */
  predicate IsWhole(v: real, k: int) {
    v == k as real
  }

  /**
   The label of a scaled operating-mode reading: the table entry when `v` is a
   whole number in the table, "Unknown" otherwise; never an error.
   */
  function StatusLabel(v: real): (text: string)
    ensures text == UnknownStatus || text in StatusMap.Values
    ensures forall k :: k in StatusMap && IsWhole(v, k) ==> text == StatusMap[k]
    ensures (forall k :: k in StatusMap ==> !IsWhole(v, k)) ==> text == UnknownStatus
  {
    if v == v.Floor as real && v.Floor in StatusMap then StatusMap[v.Floor] else UnknownStatus
  }

  /** The table covers exactly the codes 0 to 10, and its fallback label is none of its labels. */
  lemma StatusMapShape()
    ensures forall k :: k in StatusMap <==> 0 <= k <= 10
    ensures UnknownStatus !in StatusMap.Values
  {
    forall k | 0 <= k <= 10 ensures k in StatusMap && StatusMap[k] != UnknownStatus {
      assert k in {0, 1, 2, 3, 4, 5, 6, 7, 8, 9, 10};
    }
  }

  /** For a whole-number code: codes 0..10 give their table label and any other code "Unknown". */
  lemma StatusLabelTotal(code: int)
    ensures 0 <= code <= 10 ==> StatusLabel(code as real) == StatusMap[code]
    ensures !(0 <= code <= 10) ==> StatusLabel(code as real) == UnknownStatus
    ensures StatusLabel(code as real) == UnknownStatus <==> !(0 <= code <= 10)
  {
    StatusMapShape();
    assert IsWhole(code as real, code);
  }
}
