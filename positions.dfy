/**
  * Position wrappers: the mapping between a raw integer data point and the
  * 0-100 cover scale, and the three policies that decide, on every call,
  * whether that mapping is reversed.
  *
  * The remap helpers of the integration's type information are not part of
  * this model; as their stand-in, the model uses the linear remap:
  * a raw value v in [min, max] reads as (v - min) / (max - min) * 100, after
  * substituting max - v + min for v when reversed, and a percentage p writes
  * as p / 100 * (max - min) + min, after substituting 100 - p when reversed.
  * The cover platform rounds both with Python's round (ties to even). The
  * model computes that rounding exactly on integers.
  */
module Positions {
  import opened Wrappers
  import opened DataPoints

  /** Python's `round(n / d)` for `d > 0`: the nearest integer, ties to the even one. */
  function RoundHalfEven(n: int, d: int): (r: int)
    requires d > 0
    ensures -d <= 2 * (n - r * d) <= d
    ensures (2 * (n - r * d) == d || 2 * (n - r * d) == -d) ==> r % 2 == 0
  {
    var q, m := n / d, n % d;
    assert n - q * d == m;
    assert n - (q + 1) * d == m - d;
    if 2 * m < d then q
    else if 2 * m > d then q + 1
    else if q % 2 == 0 then q else q + 1
  }

  /** Any integer that is nearest to n / d, ties to even, is the rounded value. */
  lemma RoundUnique(n: int, d: int, k: int)
    requires d > 0
    requires -d <= 2 * (n - k * d) <= d
    requires (2 * (n - k * d) == d || 2 * (n - k * d) == -d) ==> k % 2 == 0
    ensures RoundHalfEven(n, d) == k
  {
    var r := RoundHalfEven(n, d);
    MulSub(r, k, d);
    SmallMultiple(r - k, d);
  }

  /** Rounding a quotient that lies between two integers gives a value between them. */
  lemma RoundBetween(n: int, d: int, lo: int, hi: int)
    requires d > 0
    ensures lo * d <= n <= hi * d ==> lo <= RoundHalfEven(n, d) <= hi
  {
    var r := RoundHalfEven(n, d);
    MulSub(r, lo - 1, d);
    MulSub(lo, 1, d);
    MulSign(r - (lo - 1), d);
    MulSub(r, hi + 1, d);
    MulSub(hi, -1, d);
    MulSign(r - (hi + 1), d);
  }

  /** A multiple of d that lies within [-d, d] is -d, 0 or d. */
  lemma SmallMultiple(x: int, d: int)
    ensures d > 0 && -d <= x * d <= d ==> -1 <= x <= 1
  {
    MulSub(x, 2, d);
    MulSub(x, -2, d);
    MulSign(x - 2, d);
    MulSign(x + 2, d);
  }

  /** Multiplication distributes over subtraction. */
  lemma MulSub(a: int, b: int, c: int)
    ensures (a - b) * c == a * c - b * c
  {
  }

  /** The sign of a product of a number and a non-negative factor. */
  lemma MulSign(a: int, c: int)
    ensures a >= 0 && c >= 0 ==> a * c >= 0
    ensures a <= 0 && c >= 0 ==> a * c <= 0
  {
  }

  /** The three wrapper classes, as a closed set of policies. */
  datatype WrapperKind =
    | Percentage        // _DPCodePercentageMappingWrapper
    | Inverted          // _InvertedPercentageMappingWrapper
    | ControlBackMode   // _ControlBackModePercentageMappingWrapper

  /** Whether the policy reverses the mapping for a device in this status (`_position_reversed`). */
  function Reversed(kind: WrapperKind, status: Status): (r: bool)
    ensures kind == Percentage ==> !r
    ensures kind == Inverted ==> r
    ensures kind == WrapperKind.ControlBackMode ==>
      (r <==> DataPoints.ControlBackMode !in status || status[DataPoints.ControlBackMode] != StrVal("back"))
  {
    match kind
    case Percentage => false
    case Inverted => true
    case ControlBackMode =>
      !(DataPoints.ControlBackMode in status && status[DataPoints.ControlBackMode] == StrVal("back"))
  }

  /** The rounded percentage a raw value reads as: `round(remap_value_to(raw, 0, 100, reversed))` with the linear stand-in. */
  function RemapTo(range: PositionRange, raw: int, reversed: bool): (r: int)
    ensures range.min <= raw <= range.max ==> 0 <= r <= 100
  {
    var v := if reversed then range.max - raw + range.min else raw;
    RoundBetween((v - range.min) * 100, range.max - range.min, 0, 100);
    RoundHalfEven((v - range.min) * 100, range.max - range.min)
  }

  /** The rounded raw value a percentage writes as: `round(remap_value_from(pct, 0, 100, reversed))` with the linear stand-in. */
  function RemapFrom(range: PositionRange, pct: int, reversed: bool): (r: int)
    ensures 0 <= pct <= 100 ==> range.min <= r <= range.max
  {
    var p := if reversed then 100 - pct else pct;
    MulSign(p, range.max - range.min);
    MulSub(100, p, range.max - range.min);
    MulSign(100 - p, range.max - range.min);
    RoundBetween(p * (range.max - range.min) + 100 * range.min, 100, range.min, range.max);
    RoundHalfEven(p * (range.max - range.min) + 100 * range.min, 100)
  }

  /** The raw ends of the range read as 0 and 100, swapped when reversed. */
  lemma RemapToEnds(range: PositionRange, reversed: bool)
    ensures RemapTo(range, range.min, reversed) == (if reversed then 100 else 0)
    ensures RemapTo(range, range.max, reversed) == (if reversed then 0 else 100)
  {
    var d := range.max - range.min;
    RoundUnique(0, d, 0);
    RoundUnique(d * 100, d, 100);
  }

  /** Positions 0 and 100 write the raw ends of the range, swapped when reversed. */
  lemma RemapFromEnds(range: PositionRange, reversed: bool)
    ensures RemapFrom(range, 0, reversed) == (if reversed then range.max else range.min)
    ensures RemapFrom(range, 100, reversed) == (if reversed then range.min else range.max)
  {
    RoundUnique(100 * range.min, 100, range.min);
    RoundUnique(100 * (range.max - range.min) + 100 * range.min, 100, range.max);
  }

  /** Reversing the mapping reflects every reading: p becomes 100 - p. */
  lemma RemapToReflects(range: PositionRange, raw: int)
    ensures RemapTo(range, raw, true) == 100 - RemapTo(range, raw, false)
  {
    var d := range.max - range.min;
    var n := (raw - range.min) * 100;
    assert RemapTo(range, raw, false) == RoundHalfEven(n, d);
    assert RemapTo(range, raw, true) == RoundHalfEven(100 * d - n, d);
    RoundReflect(n, d);
  }

  /** Rounding the complement of n / d within 100 gives the complement of the rounded value. */
  lemma RoundReflect(n: int, d: int)
    requires d > 0
    ensures RoundHalfEven(100 * d - n, d) == 100 - RoundHalfEven(n, d)
  {
    var r := RoundHalfEven(n, d);
    MulSub(100, r, d);
    RoundUnique(100 * d - n, d, 100 - r);
  }

  /**
    * On a raw range at least 100 steps wide, a percentage written and read
    * back under the same reversal flag reads as the percentage written.
    */
  lemma RemapRoundTrip(range: PositionRange, pct: int, reversed: bool)
    requires range.max - range.min >= 100
    ensures RemapTo(range, RemapFrom(range, pct, reversed), reversed) == pct
  {
    var d := range.max - range.min;
    var p := if reversed then 100 - pct else pct;
    MulSub(100, pct, d);
    var n := p * d + 100 * range.min;
    var m := RoundHalfEven(n, 100);
    assert m == RemapFrom(range, pct, reversed);
    var v := if reversed then range.max - m + range.min else m;
    var t := (v - range.min) * 100;
    assert -50 <= t - pct * d <= 50;
    RoundUnique(t, d, pct);
  }

  /**
    * Reading a raw value and writing the percentage back: the write rounds a
    * numerator that lies within half a step of the raw value's `100 * raw`.
    */
  lemma ReadWriteNumerator(range: PositionRange, raw: int, reversed: bool)
    ensures var d := range.max - range.min;
      var q := RemapTo(range, raw, reversed);
      var n := (if reversed then 100 - q else q) * d + 100 * range.min;
      RemapFrom(range, q, reversed) == RoundHalfEven(n, 100) && -d <= 2 * (n - 100 * raw) <= d
  {
    var d := range.max - range.min;
    var q := RemapTo(range, raw, reversed);
    MulSub(100, q, d);
  }

  /**
    * Reading a raw value and writing the percentage back under the same
    * reversal flag lands within (width + 100) / 200 raw steps of where it
    * started, on any range.
    */
  lemma RawRoundTripBound(range: PositionRange, raw: int, reversed: bool)
    ensures var back := RemapFrom(range, RemapTo(range, raw, reversed), reversed);
      -(range.max - range.min + 100) <= 200 * (back - raw) <= range.max - range.min + 100
  {
    ReadWriteNumerator(range, raw, reversed);
  }

  /**
    * On a raw range at most 100 steps wide, reading a raw value and writing
    * the percentage back under the same reversal flag gives the raw value
    * exactly.
    */
  lemma RawRoundTripExact(range: PositionRange, raw: int, reversed: bool)
    requires range.max - range.min <= 100
    ensures RemapFrom(range, RemapTo(range, raw, reversed), reversed) == raw
  {
    var d := range.max - range.min;
    var q := RemapTo(range, raw, reversed);
    var p := if reversed then 100 - q else q;
    var n := p * d + 100 * range.min;
    ReadWriteNumerator(range, raw, reversed);
    if d == 100 {
      assert n == 100 * (p + range.min);
    }
    RoundToStep(n, raw, d, p + range.min);
  }

  /**
    * A numerator within half of a step of width at most 100 from `100 * k`,
    * and a whole multiple of 100 when the step is exactly 100, rounds to `k`.
    */
  lemma RoundToStep(n: int, k: int, d: int, m: int)
    requires 0 < d <= 100 && -d <= 2 * (n - 100 * k) <= d
    requires d == 100 ==> n == 100 * m
    ensures RoundHalfEven(n, 100) == k
  {
    RoundUnique(n, 100, k);
  }

  /** A bound position wrapper: the resolved code, its raw range and its policy. */
  datatype PositionWrapper = PositionWrapper(code: Code, range: PositionRange, kind: WrapperKind)

  /** The raw integer the device currently reports for a code, if any. */
  function RawInteger(status: Status, code: Code): (r: Option<int>)
  {
    if code in status && status[code].IntVal? then Some(status[code].i) else None
  }

  /** `read_device_status`: the current position 0-100, reversal decided from this status. */
  function ReadPosition(w: PositionWrapper, status: Status): (r: Option<int>)
    ensures r.None? <==> RawInteger(status, w.code).None?
    ensures r.Some? ==> r.value == RemapTo(w.range, RawInteger(status, w.code).value, Reversed(w.kind, status))
  {
    match RawInteger(status, w.code)
    case None => None
    case Some(raw) => Some(RemapTo(w.range, raw, Reversed(w.kind, status)))
  }

  /** `_convert_value_to_raw_value`: the raw value for a percentage, reversal decided from this status. */
  function RawValue(w: PositionWrapper, status: Status, pct: int): (r: int)
    ensures 0 <= pct <= 100 ==> w.range.min <= r <= w.range.max
  {
    RemapFrom(w.range, pct, Reversed(w.kind, status))
  }

  /** `get_update_command`: the command pair writing a percentage to the wrapper's code. */
  function UpdateCommand(w: PositionWrapper, status: Status, pct: int): (c: Command)
    ensures c.code == w.code && c.value.IntVal?
    ensures pct == 100 ==> c.value.i == (if Reversed(w.kind, status) then w.range.min else w.range.max)
    ensures pct == 0 ==> c.value.i == (if Reversed(w.kind, status) then w.range.max else w.range.min)
  {
    RemapFromEnds(w.range, Reversed(w.kind, status));
    Command(w.code, IntVal(RawValue(w, status, pct)))
  }

  /**
    * The control-back-mode policy is consulted afresh on each read: the same
    * raw position reads as p with mode "back" and as 100 - p with any other
    * mode or none.
    */
  lemma ModeFlipsReading(w: PositionWrapper, status: Status, other: Value)
    requires w.kind == WrapperKind.ControlBackMode && w.code != DataPoints.ControlBackMode
    requires other != StrVal("back")
    requires RawInteger(status, w.code).Some?
    ensures ReadPosition(w, status[DataPoints.ControlBackMode := StrVal("back")]).Some?
    ensures ReadPosition(w, status[DataPoints.ControlBackMode := other]).Some?
    ensures ReadPosition(w, status[DataPoints.ControlBackMode := other]).value
         == 100 - ReadPosition(w, status[DataPoints.ControlBackMode := StrVal("back")]).value
    ensures ReadPosition(w, status - {DataPoints.ControlBackMode})
         == ReadPosition(w, status[DataPoints.ControlBackMode := other])
  {
    var raw := RawInteger(status, w.code).value;
    var back := status[DataPoints.ControlBackMode := StrVal("back")];
    var fwd := status[DataPoints.ControlBackMode := other];
    var gone := status - {DataPoints.ControlBackMode};
    assert RawInteger(back, w.code) == Some(raw);
    assert RawInteger(fwd, w.code) == Some(raw);
    assert RawInteger(gone, w.code) == Some(raw);
    RemapToReflects(w.range, raw);
  }

  /**
    * Writing a percentage to a wrapper's code and reading the code back under
    * the same mode gives the percentage, when the raw range is at least 100
    * steps wide.
    */
  lemma ReadAfterWrite(w: PositionWrapper, status: Status, pct: int)
    requires w.code != DataPoints.ControlBackMode
    requires w.range.max - w.range.min >= 100
    ensures ReadPosition(w, status[w.code := UpdateCommand(w, status, pct).value]) == Some(pct)
  {
    var after := status[w.code := UpdateCommand(w, status, pct).value];
    assert Reversed(w.kind, after) == Reversed(w.kind, status);
    RemapRoundTrip(w.range, pct, Reversed(w.kind, status));
  }
}
