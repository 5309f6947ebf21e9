// symbolizer/Dwarf.cc: the variable-length integers of DWARF version 4, section 7.6.
module Leb128 {
  import opened Base
  import opened StringPieces

  /** Why the program stops inside a reader. */
  datatype Fault =
    | Underflow        // Read<T> found too few bytes
    | UndefinedShift   // a shift by 64 or more bits, undefined in C++
    | Unterminated     // no null byte before the end
    | ZeroLength       // an extended opcode of length 0
    | DivisionByZero   // a special opcode while line_range is 0
    | EmptyDefineFile  // DW_LNE_define_file with an empty name
    | BadIndex         // a file or directory index that names nothing
    | BadHeader        // a header the constructor rejects

  /** What a reader makes of a byte string: a value and the bytes left, or a stop. */
  datatype Read<+T> = Done(value: T, rest: seq<byte>) | Abort(why: Fault)

  datatype Result<+T> = Ok(value: T) | Err(why: Fault)

  /** A method that read from a cursor did what the reader specification says. */
  ghost predicate Follows<T>(spec: Read<T>, got: Result<T>, left: seq<byte>) {
    match spec
    case Done(v, rest) => got == Ok(v) && left == rest
    case Abort(why) => got == Err(why)
  }

  // ---------------------------------------------------------------------
  // Specification
  // ---------------------------------------------------------------------

  /** The value of bit 7*k. */
  function Weight(k: nat): (w: int)
    ensures w > 0
  {
    if k == 0 then 1 else 128 * Weight(k - 1)
  }

  /** The seven payload bits of a byte, in place. */
  function Digit(b: byte, k: nat): nat {
    DigitBound(b % 128, Weight(k));
    b % 128 * Weight(k)
  }

  /** A LEB128 number: the sum of its weighted digits, how many, and the last byte. */
  datatype Leb = Leb(sum: nat, count: nat, last: byte)

  /** Reads digits from position k on; only the first ten shifts are defined in C++. */
  function Digits(s: seq<byte>, sum: nat, k: nat): (r: Read<Leb>)
    ensures r.Done? ==> |r.rest| < |s| && r.value.count == k + |s| - |r.rest| <= 10
    decreases |s|
  {
    if s == [] then Abort(Underflow)
    else if k >= 10 then Abort(UndefinedShift)
    else
      var sum' := sum + Digit(s[0], k);
      if s[0] >= 128 then Digits(s[1..], sum', k + 1)
      else Done(Leb(sum', k + 1, s[0]), s[1..])
  }

  function Uleb(s: seq<byte>): (r: Read<uint64>)
    ensures r.Done? ==> |r.rest| < |s|
  {
    match Digits(s, 0, 0)
    case Abort(why) => Abort(why)
    case Done(n, rest) => Done(Wrap64(n.sum), rest)
  }

  /** A number is read exactly when one of the first ten bytes ends it. */
  lemma {:induction false} DigitsEndExactlyWhen(s: seq<byte>, sum: nat, k: nat)
    requires k <= 10
    ensures Digits(s, sum, k).Done? <==> exists i :: 0 <= i < |s| && k + i < 10 && s[i] < 128
    decreases |s|
  {
    if s != [] && k < 10 && s[0] >= 128 {
      var rest := s[1..];
      DigitsEndExactlyWhen(rest, sum + Digit(s[0], k), k + 1);
      assert forall i :: 0 < i < |s| ==> s[i] == rest[i - 1];
    }
  }

  predicate SignBit(b: byte) {
    b / 64 % 2 == 1
  }

  function Sleb(s: seq<byte>): (r: Read<int64>)
    ensures r.Done? ==> |r.rest| < |s|
  {
    match Digits(s, 0, 0)
    case Abort(why) => Abort(why)
    case Done(n, rest) =>
      Done(ToInt64(Wrap64(Extended(n))), rest)
  }

  /** Sign extension; ten digits cover all 64 bits, and the code extends no further. */
  function Extended(n: Leb): int {
    if 7 * n.count < 64 && SignBit(n.last) then n.sum - Weight(n.count) else n.sum
  }

  // ---------------------------------------------------------------------
  // The readers
  // ---------------------------------------------------------------------

  lemma {:induction false} WeightIsPow2(k: nat)
    ensures Weight(k) == Pow2(7 * k)
  {
    if k > 0 {
      WeightIsPow2(k - 1);
      Pow2Add(7, 7 * (k - 1));
      assert Pow2(7) == 128;
      assert 7 + 7 * (k - 1) == 7 * k;
    }
  }

  lemma WeightConstants()
    ensures Weight(9) == TWO63 && Weight(10) == 64 * TWO64
  {
    assert Weight(4) == 0x1000_0000;
    assert Weight(8) == 0x100_0000_0000_0000;
  }

  lemma {:induction false} WeightMonotone(j: nat, k: nat)
    requires j <= k
    ensures Weight(j) <= Weight(k)
  {
    if j < k {
      WeightMonotone(j, k - 1);
    }
  }

  /** Splitting off the low digit of v, weighted by w. */
  lemma SplitDigit(v: int, w: int)
    ensures v * w == v % 128 * w + v / 128 * (128 * w)
  {
    assert v == v % 128 + v / 128 * 128;
    assert (v % 128 + v / 128 * 128) * w == v % 128 * w + v / 128 * 128 * w;
  }

  lemma DigitBound(d: nat, w: int)
    requires d < 128 && w > 0
    ensures 0 <= d * w <= 127 * w
  {
  }

  /** One turn of the loop: the or of the shifted digit adds it, modulo 2^64. */
  lemma OrDigit(r: uint64, d: nat, k: nat, p: int)
    requires k <= 9 && r < Weight(k) && d < 128 && p == d * Weight(k)
    ensures p >= 0 && BitOr(r, Wrap64(p)) == Wrap64(r + p)
    ensures k < 9 ==> r + p < Weight(k + 1) <= TWO63
  {
    if k < 9 {
      OrLowDigit(r, d, k);
      WrapSmall(p);
      WrapSmall(r + p);
    } else {
      WeightConstants();
      OrTopDigit(r, d);
    }
  }

  lemma WrapSmall(x: int)
    requires 0 <= x < TWO64
    ensures Wrap64(x) == x
  {
  }

  lemma OrLowDigit(r: uint64, d: nat, k: nat)
    requires k < 9 && r < Weight(k) && d < 128
    ensures 0 <= d * Weight(k)
    ensures BitOr(r, d * Weight(k)) == r + d * Weight(k) < Weight(k + 1) <= TWO63
  {
    var w := Weight(k);
    DigitBound(d, w);
    assert Weight(k + 1) <= TWO63 by {
      WeightMonotone(k + 1, 9);
      WeightConstants();
    }
    assert BitOr(r, d * w) == r + d * w by {
      WeightIsPow2(k);
      MultipleOf(d, w);
      BitOrDisjoint(r, d * w, 7 * k);
    }
  }

  lemma OrTopDigit(r: uint64, d: nat)
    requires r < TWO63 && d < 128
    ensures BitOr(r, Wrap64(d * TWO63)) == Wrap64(r + d * TWO63)
  {
    var top := d % 2 * TWO63;
    assert d == d / 2 * 2 + d % 2;
    DivisionIsUnique(d * TWO63, TWO64, d / 2, top);
    DivisionIsUnique(r + d * TWO63, TWO64, d / 2, r + top);
    Pow2At64();
    MultipleOf(d % 2, TWO63);
    BitOrDisjoint(r, top, 63);
  }

  /** Read<uint8_t>. */
  method ReadByte(s: StringPiece) returns (r: Result<byte>)
    requires s.Valid()
    modifies s
    ensures s.Valid()
    ensures old(s.View()) == [] ==> r == Err(Underflow)
    ensures old(s.View()) != [] ==> r == Ok(old(s.View())[0]) && s.View() == old(s.View())[1..]
  {
    if s.length < 1 {
      return Err(Underflow);
    }
    r := Ok(s.buffer[s.ptr]);
    s.RemovePrefix(1);
  }

  /** The loop variables after k digits worth sum. */
  ghost predicate Accumulated(bits: nat, shift: nat, sum: nat, k: nat) {
    && k <= 10 && shift == 7 * k && bits == Wrap64(sum)
    && (k <= 9 ==> sum < Weight(k) <= TWO63)
  }

  lemma AccumulateDigit(bits: uint64, shift: nat, sum: nat, k: nat, val: byte)
    requires Accumulated(bits, shift, sum, k) && k <= 9
    ensures Accumulated(BitOr(bits, Wrap64(val % 128 * Pow2(shift))), shift + 7, sum + Digit(val, k), k + 1)
  {
    WrapSmall(sum);
    var p := Digit(val, k);
    OrDigit(bits, val % 128, k, p);
    assert val % 128 * Pow2(shift) == p by {
      WeightIsPow2(k);
    }
  }

  /** The digit loop shared by both readers. */
  method ReadDigits(s: StringPiece) returns (fault: Option<Fault>, bits: uint64, shift: nat, val: byte)
    requires s.Valid()
    modifies s
    ensures s.Valid()
    ensures match Digits(old(s.View()), 0, 0)
      case Abort(why) => fault == Some(why)
      case Done(n, rest) =>
        && fault == None && s.View() == rest
        && Accumulated(bits, shift, n.sum, n.count) && val == n.last
  {
    fault, bits, shift, val := None, 0, 0, 0;
    ghost var sum: nat, k: nat := 0, 0;
    while true
      invariant s.Valid() && fault == None
      invariant Accumulated(bits, shift, sum, k)
      invariant Digits(s.View(), sum, k) == Digits(old(s.View()), 0, 0)
      decreases |s.View()|
    {
      var b := ReadByte(s);
      if b.Err? {
        fault := Some(b.why);
        return;
      }
      val := b.value;
      if shift >= 64 {
        fault := Some(UndefinedShift);
        return;
      }
      AccumulateDigit(bits, shift, sum, k, val);
      bits := BitOr(bits, Wrap64(val % 128 * Pow2(shift)));
      sum, k := sum + Digit(val, k), k + 1;
      shift := shift + 7;
      if val < 128 {
        return;
      }
    }
  }

  method ReadUleb(s: StringPiece) returns (r: Result<uint64>)
    requires s.Valid()
    modifies s
    ensures s.Valid() && Follows(Uleb(old(s.View())), r, s.View())
  {
    var fault, bits, shift, val := ReadDigits(s);
    r := if fault.Some? then Err(fault.value) else Ok(bits);
  }

  method ReadSleb(s: StringPiece) returns (r: Result<int64>)
    requires s.Valid()
    modifies s
    ensures s.Valid() && Follows(Sleb(old(s.View())), r, s.View())
  {
    var fault, bits, shift, val := ReadDigits(s);
    if fault.Some? {
      return Err(fault.value);
    }
    ghost var n := Digits(old(s.View()), 0, 0).value;
    if shift < 64 && SignBit(val) {
      SignExtension(n.sum, n.count);
      WrapSmall(n.sum);
      bits := BitOr(bits, Wrap64(-Pow2(shift)));
    }
    assert bits == Wrap64(Extended(n));
    r := Ok(ToInt64(bits));
  }

  /** Or-ing in -(1 << 7k) subtracts the weight, modulo 2^64. */
  lemma SignExtension(sum: nat, k: nat)
    requires k <= 9 && sum < Weight(k) <= TWO63
    ensures BitOr(sum, Wrap64(-Pow2(7 * k))) == Wrap64(sum - Weight(k))
  {
    WeightIsPow2(k);
    var w := Weight(k);
    DivisionIsUnique(-w, TWO64, -1, TWO64 - w);
    DivisionIsUnique(sum - w, TWO64, -1, TWO64 - w + sum);
    MaskIsMultiple(k);
    BitOrDisjoint(sum, TWO64 - w, 7 * k);
  }

  lemma MaskIsMultiple(k: nat)
    requires k <= 9
    ensures (TWO64 - Weight(k)) % Weight(k) == 0
  {
    var w := Weight(k);
    var c := Cofactor(k);
    assert TWO64 - w == (2 * c - 1) * w;
    MultipleOf(2 * c - 1, w);
  }

  /** 2^63 is a multiple of every weight below it. */
  lemma Cofactor(k: nat) returns (c: int)
    requires k <= 9
    ensures c > 0 && TWO63 == c * Weight(k)
  {
    WeightIsPow2(k);
    Pow2At64();
    Pow2Add(63 - 7 * k, 7 * k);
    c := Pow2(63 - 7 * k);
  }

  // ---------------------------------------------------------------------
  // Round trips
  // ---------------------------------------------------------------------

  /** The encoder of figure 46 in DWARF 4, section 7.6. */
  function EncodeUleb(v: nat): (s: seq<byte>)
    ensures s != []
  {
    if v < 128 then [v] else [128 + v % 128] + EncodeUleb(v / 128)
  }

  /** The signed encoder: stops when the rest is all copies of the sign bit. */
  function EncodeSleb(v: int): (s: seq<byte>)
    ensures s != []
    decreases if v < 0 then -v else v
  {
    if -64 <= v < 64 then [v % 128] else [128 + v % 128] + EncodeSleb(v / 128)
  }

  lemma {:induction false} DigitsOfEncodeUleb(v: nat, tail: seq<byte>, sum: nat, k: nat)
    requires k <= 9 && v * Weight(k) < TWO64
    ensures 0 <= v * Weight(k)
    ensures exists n :: Digits(EncodeUleb(v) + tail, sum, k) == Done(n, tail) && n.sum == sum + v * Weight(k)
    decreases v
  {
    var s := EncodeUleb(v) + tail;
    if v < 128 {
      assert s[1..] == tail;
      assert Digits(s, sum, k) == Done(Leb(sum + Digit(v, k), k + 1, v), tail);
    } else {
      assert s[1..] == EncodeUleb(v / 128) + tail;
      NextPosition(v, k);
      var sum' := sum + Digit(128 + v % 128, k);
      DigitsOfEncodeUleb(v / 128, tail, sum', k + 1);
      assert Digits(s, sum, k) == Digits(s[1..], sum', k + 1);
    }
  }

  lemma NextPosition(v: nat, k: nat)
    requires 128 <= v && k <= 9 && v * Weight(k) < TWO64
    ensures k < 9 && v / 128 * Weight(k + 1) < TWO64
    ensures v * Weight(k) == Digit(128 + v % 128, k) + v / 128 * Weight(k + 1)
    ensures 0 <= v / 128 * Weight(k + 1)
  {
    SplitDigit(v, Weight(k));
    DigitBound(v % 128, Weight(k));
    assert k < 9 by {
      WeightConstants();
      assert v * Weight(k) >= 128 * Weight(k);
    }
  }

  /** Every 64-bit value survives encoding, and exactly its encoding is consumed. */
  lemma UlebRoundTrip(v: uint64, tail: seq<byte>)
    ensures Uleb(EncodeUleb(v) + tail) == Done(v, tail)
  {
    DigitsOfEncodeUleb(v, tail, 0, 0);
  }

  /** What sign extension takes away again when the last byte has its sign bit set. */
  function SignWeight(last: byte, count: nat): int {
    if SignBit(last) then Weight(count) else 0
  }

  /** The digits of a signed encoding sum to the value plus its sign weight. */
  lemma {:induction false} DigitsOfEncodeSleb(v: int, tail: seq<byte>, sum: nat, k: nat)
    requires k <= 9 && -TWO63 <= v * Weight(k) < TWO63
    ensures exists n :: Digits(EncodeSleb(v) + tail, sum, k) == Done(n, tail)
                     && n.sum == sum + v * Weight(k) + SignWeight(n.last, n.count)
    decreases if v < 0 then -v else v
  {
    var s := EncodeSleb(v) + tail;
    if -64 <= v < 64 {
      assert s[1..] == tail;
      LastDigit(v, k);
      assert Digits(s, sum, k) == Done(Leb(sum + Digit(v % 128, k), k + 1, v % 128), tail);
    } else {
      assert s[1..] == EncodeSleb(v / 128) + tail;
      HigherDigitsFit(v, k);
      var sum' := sum + Digit(128 + v % 128, k);
      DigitsOfEncodeSleb(v / 128, tail, sum', k + 1);
      assert Digits(s, sum, k) == Digits(s[1..], sum', k + 1);
    }
  }

  lemma LastDigit(v: int, k: nat)
    requires -64 <= v < 64
    ensures Digit(v % 128, k) == v * Weight(k) + SignWeight(v % 128, k + 1)
  {
    if v < 0 {
      assert v % 128 == v + 128;
      assert (v + 128) * Weight(k) == v * Weight(k) + 128 * Weight(k);
    }
  }

  /** Rounding down to the next position cannot pass -2^63, a multiple of every weight. */
  lemma HigherDigitsFit(v: int, k: nat)
    requires k <= 9 && -TWO63 <= v * Weight(k) < TWO63
    requires v < -64 || 64 <= v
    ensures k < 9 && -TWO63 <= v / 128 * Weight(k + 1) < TWO63
    ensures v * Weight(k) == Digit(128 + v % 128, k) + v / 128 * Weight(k + 1)
  {
    MoreThanOneDigit(v, k);
    SplitDigit(v, Weight(k));
    DigitBound(v % 128, Weight(k));
    var c := Cofactor(k + 1);
    AboveMultiple(v / 128, Weight(k + 1), c);
  }

  lemma MoreThanOneDigit(v: int, k: nat)
    requires k <= 9 && -TWO63 <= v * Weight(k) < TWO63
    requires v < -64 || 64 <= v
    ensures k < 9
  {
    WeightConstants();
    assert k == 9 ==> v * Weight(k) == v * 0x8000_0000_0000_0000;
  }

  lemma AboveMultiple(q: int, w: int, c: int)
    requires w > 0 && q * w > -c * w - w
    ensures q * w >= -c * w
  {
    assert (q + c + 1) * w > 0;
    assert q + c + 1 > 0;
    assert (q + c) * w >= 0;
  }

  /** Every signed 64-bit value survives, including the ten-byte encodings
      that the reader does not sign-extend. */
  lemma SlebRoundTrip(v: int64, tail: seq<byte>)
    ensures Sleb(EncodeSleb(v) + tail) == Done(v, tail)
  {
    assert v * Weight(0) == v;
    DigitsOfEncodeSleb(v, tail, 0, 0);
    var n: Leb :| Digits(EncodeSleb(v) + tail, 0, 0) == Done(n, tail)
               && n.sum == v + SignWeight(n.last, n.count);
    assert Wrap64(Extended(n)) == Wrap64(v) by {
      if SignBit(n.last) && n.count == 10 {
        WeightConstants();
        RemainderOfSum(64, v, TWO64);
      }
    }
    ToInt64OfWrap(v);
  }

  lemma ToInt64OfWrap(v: int64)
    ensures ToInt64(Wrap64(v)) == v
  {
  }

  /** The examples of Figures 22 and 23 of DWARF 4, section 7.6. */
  lemma NumbersOfTheStandard()
    ensures EncodeUleb(2) == [2] && EncodeUleb(127) == [127] && EncodeUleb(128) == [0x80, 1]
    ensures EncodeUleb(129) == [0x81, 1] && EncodeUleb(12857) == [57 + 0x80, 100]
    ensures EncodeSleb(2) == [2] && EncodeSleb(-2) == [0x7E]
    ensures EncodeSleb(127) == [127 + 0x80, 0] && EncodeSleb(-127) == [1 + 0x80, 0x7F]
    ensures EncodeSleb(128) == [0 + 0x80, 1] && EncodeSleb(-128) == [0 + 0x80, 0x7F]
    ensures EncodeSleb(129) == [1 + 0x80, 1] && EncodeSleb(-129) == [0x7F + 0x80, 0x7E]
  {
  }
}
