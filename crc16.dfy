/**
 * The checksum of the Pix payload: `crc16` of src/components/PixModal.tsx and
 * its copy in src/components/dashboard/PixManager.tsx.
 *
 * The JavaScript routine keeps its accumulator in a Number and only masks it
 * to 16 bits at the very end; the shifts and `^` of JavaScript act on the
 * 32-bit two's-complement pattern of that Number, so the accumulator is
 * modelled as a `bv32`.  The reference it is proved against is the textbook
 * CRC-16/CCITT-FALSE (polynomial 0x1021, initial value 0xFFFF, most
 * significant bit first, no final XOR; ISO/IEC 13239) that masks to 16 bits
 * after every step and reads one byte per code unit.
 */
module Crc16 {
  import opened Common

  // ---------------------------------------------------------------------------
  // Reference CRC-16/CCITT-FALSE, a 16-bit register kept in the low half of a bv32
  // ---------------------------------------------------------------------------

  const Polynomial: bv32 := 0x1021
  const Initial: bv32 := 0xFFFF

  /** The low 16 bits of a register, JavaScript's `crc & 0xffff`. */
  function Low16(x: bv32): bv32 { x & 0xFFFF }

  predicate Is16(x: bv32) { Low16(x) == x }

  /** One bit of the division, masked to 16 bits. */
  function RefShift(crc: bv32): (r: bv32)
    ensures Is16(r)
  {
    if crc & 0x8000 != 0 then Low16((crc << 1) ^ Polynomial) else Low16(crc << 1)
  }

  /** `k` bits of the division. */
  function RefShifts(crc: bv32, k: nat): (r: bv32)
    requires Is16(crc)
    ensures Is16(r)
  {
    if k == 0 then crc else RefShift(RefShifts(crc, k - 1))
  }

  /** `charCodeAt`: the numeric value of a character, its one UTF-16 code unit in the Basic Multilingual Plane. */
  function CodeUnit(c: char): bv32 { c as bv32 }

  /** The byte the reference reads from a code unit: its low eight bits. */
  function LowByte(c: char): bv32
  {
    CodeUnit(c) & 0xFF
  }

  /** The bits of a byte, divided one at a time. */
  const ByteBits: nat := 8

  /** Feed one byte into the register, high bit first. */
  function RefByte(crc: bv32, b: bv32): (r: bv32)
    requires Is16(crc)
    ensures Is16(r)
  {
    RefShifts(Low16(crc ^ (b << 8)), ByteBits)
  }

  /** Feed the byte the reference reads from a code unit. */
  function RefUpdate(crc: bv32, c: char): (r: bv32)
    requires Is16(crc)
    ensures Is16(r)
  {
    RefByte(crc, LowByte(c))
  }

  function RefFrom(crc: bv32, s: string): (r: bv32)
    requires Is16(crc)
    ensures Is16(r)
    decreases s
  {
    if s == [] then crc else RefFrom(RefUpdate(crc, s[0]), s[1..])
  }

  /** CRC-16/CCITT-FALSE of a string, one byte per code unit. */
  function Crc16Ccitt(s: string): (r: bv32)
    ensures Is16(r)
  {
    RefFrom(Initial, s)
  }

  lemma {:induction false} RefFromAppend(crc: bv32, a: string, b: string)
    requires Is16(crc)
    ensures RefFrom(crc, a + b) == RefFrom(RefFrom(crc, a), b)
    decreases a
  {
    if a == [] {
      assert a + b == b;
    } else {
      assert (a + b)[1..] == a[1..] + b;
      RefFromAppend(RefUpdate(crc, a[0]), a[1..], b);
    }
  }

  /** Only the low byte of each code unit reaches the checksum. */
  lemma {:induction false} OnlyLowBytesMatter(crc: bv32, s: string, t: string)
    requires Is16(crc)
    requires |s| == |t| && forall i :: 0 <= i < |s| ==> LowByte(s[i]) == LowByte(t[i])
    ensures RefFrom(crc, s) == RefFrom(crc, t)
    decreases s
  {
    if s != [] {
      assert LowByte(s[0]) == LowByte(t[0]);
      OnlyLowBytesMatter(RefUpdate(crc, s[0]), s[1..], t[1..]);
    }
  }

  // ---------------------------------------------------------------------------
  // (crc & 0xffff).toString(16).toUpperCase().padStart(4, "0")
  // ---------------------------------------------------------------------------

  /** The digit `Number#toString(16)` writes: lower-case letters. */
  function LowerHexChar(d: nat): char
    requires d < 16
  {
    if d < 10 then DigitChar(d) else ('a' as int + d - 10) as char
  }

  /** `n.toString(16)`: the shortest lower-case hexadecimal numeral. */
  function LowerHex(n: nat): (r: string)
    ensures |r| >= 1
  {
    if n < 16 then [LowerHexChar(n)] else LowerHex(n / 16) + [LowerHexChar(n % 16)]
  }

  /** The four-character checksum text. */
  function Hex4(n: nat): string
  {
    PadStart(ToUpper(LowerHex(n)), 4, '0')
  }

  predicate IsUpperHexChar(c: char) { '0' <= c <= '9' || 'A' <= c <= 'F' }

  function UpperHexValue(c: char): nat
    requires IsUpperHexChar(c)
  {
    if c <= '9' then c as int - '0' as int else c as int - 'A' as int + 10
  }

  predicate IsUpperHex(s: string) { forall i :: 0 <= i < |s| ==> IsUpperHexChar(s[i]) }

  /** The value of an upper-case hexadecimal numeral. */
  function HexValue(s: string): nat
    requires IsUpperHex(s)
  {
    if s == [] then 0 else HexValue(s[..|s| - 1]) * 16 + UpperHexValue(s[|s| - 1])
  }

  lemma {:induction false} UpperLowerHex(n: nat)
    ensures IsUpperHex(ToUpper(LowerHex(n)))
    ensures HexValue(ToUpper(LowerHex(n))) == n
  {
    var d: nat := n % 16;
    UpperDigit(d);
    var c := UpperChar(LowerHexChar(d));
    if n < 16 {
      HexSnoc([], c);
      assert ToUpper(LowerHex(n)) == [] + [c];
    } else {
      var p := ToUpper(LowerHex(n / 16));
      UpperLowerHex(n / 16);
      HexSnoc(p, c);
      assert ToUpper(LowerHex(n)) == p + [c] by {
        UpperSnoc(LowerHex(n / 16), LowerHexChar(d));
      }
    }
  }

  lemma UpperSnoc(s: string, x: char)
    ensures ToUpper(s + [x]) == ToUpper(s) + [UpperChar(x)]
  {
  }

  lemma HexSnoc(p: string, c: char)
    requires IsUpperHex(p) && IsUpperHexChar(c)
    ensures IsUpperHex(p + [c]) && HexValue(p + [c]) == HexValue(p) * 16 + UpperHexValue(c)
  {
    assert (p + [c])[..|p|] == p;
  }

  /** A digit of `toString(16)`, upper-cased. */
  lemma UpperDigit(d: nat)
    requires d < 16
    ensures IsUpperHexChar(UpperChar(LowerHexChar(d))) && UpperHexValue(UpperChar(LowerHexChar(d))) == d
  {
  }

  lemma {:induction false} LowerHexLength(n: nat, k: nat)
    ensures |LowerHex(n)| <= k + 1 <==> n < Pow16(k + 1)
  {
    if n >= 16 && k > 0 {
      LowerHexLength(n / 16, k - 1);
    }
  }

  function Pow16(k: nat): (r: nat)
    ensures r >= 1
  {
    if k == 0 then 1 else 16 * Pow16(k - 1)
  }

  lemma {:induction false} HexValueLeadingZeros(k: nat, s: string)
    requires IsUpperHex(s)
    ensures IsUpperHex(Repeat('0', k) + s)
    ensures HexValue(Repeat('0', k) + s) == HexValue(s)
  {
    if s == [] {
      assert Repeat('0', k) + s == Repeat('0', k);
      ZerosValue(k);
    } else {
      var s' := s[..|s| - 1];
      assert (Repeat('0', k) + s)[..|Repeat('0', k) + s| - 1] == Repeat('0', k) + s';
      HexValueLeadingZeros(k, s');
    }
  }

  lemma {:induction false} ZerosValue(k: nat)
    ensures IsUpperHex(Repeat('0', k)) && HexValue(Repeat('0', k)) == 0
  {
    if k > 0 {
      ZerosValue(k - 1);
      assert Repeat('0', k)[..k - 1] == Repeat('0', k - 1);
    }
  }

  /**
   * For every 16-bit value the text is exactly four upper-case hexadecimal
   * digits, zero-padded, and reads back as the value.
   */
  lemma Hex4Format(n: nat)
    requires n < 0x10000
    ensures |Hex4(n)| == 4 && IsUpperHex(Hex4(n)) && HexValue(Hex4(n)) == n
  {
    UpperLowerHex(n);
    LowerHexLength(n, 3);
    assert Pow16(4) == 0x10000;
    var u := ToUpper(LowerHex(n));
    if |u| < 4 {
      HexValueLeadingZeros(4 - |u|, u);
    }
  }

  /** Two 16-bit values give the same text only when they are equal. */
  lemma Hex4Injective(m: nat, n: nat)
    requires m < 0x10000 && n < 0x10000 && Hex4(m) == Hex4(n)
    ensures m == n
  {
    Hex4Format(m);
    Hex4Format(n);
  }

  // ---------------------------------------------------------------------------
  // The JavaScript routine
  // ---------------------------------------------------------------------------

  /** One step of the inner loop, seen through the 16-bit mask. */
  lemma ShiftStep(crc: bv32, next: bv32)
    requires next == if crc & 0x8000 != 0 then (crc << 1) ^ Polynomial else crc << 1
    ensures Low16(next) == RefShift(Low16(crc))
  {
    MaskTopBit(crc);
    if crc & 0x8000 != 0 {
      MaskShiftXor(crc);
    } else {
      MaskShift(crc);
    }
  }

  lemma MaskTopBit(x: bv32)
    ensures Low16(x) & 0x8000 == x & 0x8000
  {
  }

  lemma MaskShiftXor(x: bv32)
    ensures Low16((Low16(x) << 1) ^ Polynomial) == Low16((x << 1) ^ Polynomial)
  {
  }

  lemma MaskShift(x: bv32)
    ensures Low16(Low16(x) << 1) == Low16(x << 1)
  {
  }

  /** Shifting in a whole code unit changes the low 16 bits as its low byte does. */
  lemma XorStep(crc: bv32, unit: bv32, next: bv32)
    requires next == crc ^ (unit << 8)
    ensures Low16(next) == Low16(Low16(crc) ^ ((unit & 0xFF) << 8))
  {
  }

  lemma Low16Is16(x: bv32)
    ensures Is16(Low16(x))
  {
  }

  /**
   * `crc16(str)` as written: the accumulator is never masked inside the loop
   * and each code unit is shifted in whole.  The text it returns is the
   * four-digit form of the reference CRC, so the growth above bit 15 and the
   * high byte of each code unit never change the result.
   */
  method Crc16Js(str: string) returns (hex: string)
    ensures hex == Hex4(Crc16Ccitt(str) as int)
    ensures |hex| == 4 && IsUpperHex(hex)
  {
    var crc: bv32 := 0xFFFF;
    var i := 0;
    while i < |str|
      invariant 0 <= i <= |str|
      invariant Is16(Low16(crc))
      invariant RefFrom(Low16(crc), str[i..]) == Crc16Ccitt(str)
    {
      ghost var before := crc;
      crc := crc ^ (CodeUnit(str[i]) << 8);
      ghost var mid := crc;
      crc := DivideByte(crc);
      OuterStep(before, str[i], mid, crc);
      FromStep(Low16(before), str[i..], Low16(crc));
      assert str[i..][1..] == str[i + 1..];
      i := i + 1;
    }
    hex := Hex4(Low16(crc) as int);
    Hex4Format(Crc16Ccitt(str) as int);
  }

  /** The inner loop: eight steps of the division on the unmasked accumulator. */
  method DivideByte(start: bv32) returns (crc: bv32)
    ensures Low16(crc) == RefShifts(Low16(start), ByteBits)
  {
    crc := start;
    Low16Is16(start);
    var j := 0;
    while j < 8
      invariant 0 <= j <= 8
      invariant Is16(Low16(crc))
      invariant Low16(crc) == RefShifts(Low16(start), j)
    {
      ghost var prev := crc;
      if crc & 0x8000 != 0 {
        crc := (crc << 1) ^ 0x1021;
      } else {
        crc := crc << 1;
      }
      ShiftStep(prev, crc);
      Low16Is16(crc);
      j := j + 1;
    }
  }

  /**
   * One pass of the outer loop: XOR-ing the whole code unit into the unmasked
   * accumulator and dividing eight bits leaves the low 16 bits as one
   * reference update does.
   */
  lemma OuterStep(before: bv32, c: char, mid: bv32, after: bv32)
    requires mid == before ^ (CodeUnit(c) << 8)
    requires Low16(after) == RefShifts(Low16(mid), ByteBits)
    ensures Is16(Low16(before)) && Is16(Low16(after))
    ensures Low16(after) == RefUpdate(Low16(before), c)
  {
    XorStep(before, CodeUnit(c), mid);
    Low16Is16(mid);
    Low16Is16(before);
    Low16Is16(after);
    UnitStep(Low16(before), c, Low16(mid), Low16(after));
  }

  /** The eight shifts after the XOR of a code unit make one reference update. */
  lemma UnitStep(crc: bv32, c: char, start: bv32, r: bv32)
    requires Is16(crc) && Is16(start)
    requires start == Low16(crc ^ ((CodeUnit(c) & 0xFF) << 8))
    requires r == RefShifts(start, ByteBits)
    ensures r == RefUpdate(crc, c)
  {
  }

  /** One byte of the check computation, with its intermediate value named. */
  lemma UpdateStep(crc: bv32, c: char, b: bv32, start: bv32, r: bv32)
    requires Is16(crc) && Is16(start)
    requires LowByte(c) == b && Low16(crc ^ (b << 8)) == start
    requires RefShifts(start, 8) == r
    ensures RefUpdate(crc, c) == r
  {
  }

  lemma FromStep(crc: bv32, s: string, r: bv32)
    requires Is16(crc) && s != [] && RefUpdate(crc, s[0]) == r
    ensures RefFrom(crc, s) == RefFrom(r, s[1..])
  {
  }

  lemma CheckStep1()
    ensures RefUpdate(0xFFFF, '1') == 0xC782
  {
    UpdateStep(0xFFFF, '1', 0x31, 0xCEFF, 0xC782);
  }

  lemma CheckStep2()
    ensures RefUpdate(0xC782, '2') == 0x3DBA
  {
    UpdateStep(0xC782, '2', 0x32, 0xF582, 0x3DBA);
  }

  lemma CheckStep3()
    ensures RefUpdate(0x3DBA, '3') == 0x5BCE
  {
    UpdateStep(0x3DBA, '3', 0x33, 0x0EBA, 0x5BCE);
  }

  lemma CheckStep4()
    ensures RefUpdate(0x5BCE, '4') == 0x5349
  {
    UpdateStep(0x5BCE, '4', 0x34, 0x6FCE, 0x5349);
  }

  lemma CheckStep5()
    ensures RefUpdate(0x5349, '5') == 0x4560
  {
    UpdateStep(0x5349, '5', 0x35, 0x6649, 0x4560);
  }

  lemma CheckStep6()
    ensures RefUpdate(0x4560, '6') == 0x2EF4
  {
    UpdateStep(0x4560, '6', 0x36, 0x7360, 0x2EF4);
  }

  lemma CheckStep7()
    ensures RefUpdate(0x2EF4, '7') == 0x7718
  {
    UpdateStep(0x2EF4, '7', 0x37, 0x19F4, 0x7718);
  }

  lemma CheckStep8()
    ensures RefUpdate(0x7718, '8') == 0xA12B
  {
    UpdateStep(0x7718, '8', 0x38, 0x4F18, 0xA12B);
  }

  lemma CheckStep9()
    ensures RefUpdate(0xA12B, '9') == 0x29B1
  {
    UpdateStep(0xA12B, '9', 0x39, 0x982B, 0x29B1);
  }

  lemma CheckThird1()
    ensures RefFrom(0xFFFF, "123456789") == RefFrom(0x5BCE, "456789")
  {
    CheckStep1();
    FromStep(0xFFFF, "123456789", 0xC782);
    CheckStep2();
    FromStep(0xC782, "23456789", 0x3DBA);
    CheckStep3();
    FromStep(0x3DBA, "3456789", 0x5BCE);
  }

  lemma CheckThird2()
    ensures RefFrom(0x5BCE, "456789") == RefFrom(0x2EF4, "789")
  {
    CheckStep4();
    FromStep(0x5BCE, "456789", 0x5349);
    CheckStep5();
    FromStep(0x5349, "56789", 0x4560);
    CheckStep6();
    FromStep(0x4560, "6789", 0x2EF4);
  }

  lemma CheckThird3()
    ensures RefFrom(0x2EF4, "789") == RefFrom(0x29B1, "")
  {
    CheckStep7();
    FromStep(0x2EF4, "789", 0x7718);
    CheckStep8();
    FromStep(0x7718, "89", 0xA12B);
    CheckStep9();
    FromStep(0xA12B, "9", 0x29B1);
  }

  /** The check value of CRC-16/CCITT-FALSE: "123456789" gives 29B1. */
  lemma CheckValue()
    ensures Crc16Ccitt("123456789") == 0x29B1
  {
    CheckThird1();
    CheckThird2();
    CheckThird3();
  }

  /** ... and its text is "29B1". */
  lemma CheckText()
    ensures Hex4(0x29B1) == "29B1"
  {
    assert LowerHex(0x29B1) == "29b1";
  }
}
