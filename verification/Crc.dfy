/** The reflected CRC-32 with polynomial 0xEDB88320 (section 8 of RFC 1952). */
module Crc {
  import opened Bytes

  const POLYNOMIAL: bv32 := 0xEDB88320

  function Xor(a: bv32, b: bv32): bv32 { a ^ b }

  function HalfOf(crc: bv32): bv32 { crc >> 1 }

  function Feedback(crc: bv32): bv32 { if crc & 1 == 1 then POLYNOMIAL else 0 }

  /** One bit of the division. */
  function BitStep(crc: bv32): bv32 { Xor(HalfOf(crc), Feedback(crc)) }

  function Steps(crc: bv32, n: nat): bv32 {
    if n == 0 then crc else BitStep(Steps(crc, n - 1))
  }

  function Word(b: Byte): bv32 { (b as bv8) as bv32 }

  function Absorb(crc: bv32, b: Byte): bv32 { Steps(Xor(crc, Word(b)), 8) }

  /** The register after `data`, from the register `crc`. */
  function Register(crc: bv32, data: seq<Byte>): bv32
    decreases |data|
  {
    if data == [] then crc else Register(Absorb(crc, data[0]), data[1..])
  }

  function Invert(crc: bv32): bv32 { !crc }

  function Crc32(data: seq<Byte>): nat {
    Invert(Register(0xFFFF_FFFF, data)) as nat
  }

  lemma {:induction false} RegisterAppend(crc: bv32, a: seq<Byte>, b: seq<Byte>)
    ensures Register(crc, a + b) == Register(Register(crc, a), b)
    decreases |a|
  {
    hide Absorb;
    if a == [] {
      assert a + b == b;
    } else {
      assert (a + b)[1..] == a[1..] + b;
      RegisterAppend(Absorb(crc, a[0]), a[1..], b);
    }
  }

  lemma MaskIsBranch(crc: bv32, mask: bv32)
    requires mask == 0 - (crc & 1)
    ensures Xor(HalfOf(crc), POLYNOMIAL & mask) == BitStep(crc)
  {
    assert crc & 1 == 0 || crc & 1 == 1;
    assert POLYNOMIAL & mask == Feedback(crc);
    hide *;
  }

  lemma RegisterSnoc(crc: bv32, data: seq<Byte>, b: Byte)
    ensures Register(crc, data + [b]) == Absorb(Register(crc, data), b)
  {
    hide Absorb;
    RegisterAppend(crc, data, [b]);
    assert [b][1..] == [];
    var r := Register(crc, data);
    assert Register(r, [b]) == Register(Absorb(r, b), []);
  }

  /** The checksum as the code computes it: bit by bit, with a mask for the feedback. */
  method ComputeCrc32(data: seq<Byte>) returns (crc: nat)
    ensures crc == Crc32(data)
    ensures IsDigits(data) ==> crc == 0xCBF4_3926
  {
    hide IsDigits;
    DigitsChecked(data);
    var register: bv32 := 0xFFFF_FFFF;
    for i := 0 to |data|
      invariant register == Register(0xFFFF_FFFF, data[..i])
    {
      RegisterSnoc(0xFFFF_FFFF, data[..i], data[i]);
      register := AbsorbByte(register, data[i]);
      assert data[..i + 1] == data[..i] + [data[i]];
    }
    assert data[..|data|] == data;
    return Invert(register) as nat;
  }

  method AbsorbByte(register: bv32, value: Byte) returns (crc: bv32)
    ensures crc == Absorb(register, value)
  {
    crc := Xor(register, Word(value));
    ghost var start := crc;
    assert crc == Steps(start, 0);
    assert Absorb(register, value) == Steps(start, 8);
    hide *;
    for bit := 0 to 8
      invariant crc == Steps(start, bit)
    {
      StepsUnfold(start, bit);
      var mask: bv32 := 0 - (crc & 1);
      MaskIsBranch(crc, mask);
      crc := Xor(HalfOf(crc), POLYNOMIAL & mask);
    }
  }

  lemma StepsUnfold(crc: bv32, n: nat)
    ensures Steps(crc, n + 1) == BitStep(Steps(crc, n))
  {
    hide BitStep;
  }

  // The register depends linearly on what it has absorbed.

  lemma XorLaws(a: bv32, b: bv32)
    ensures Xor(a, a) == 0 && Xor(a, 0) == a && Xor(0, a) == a && Xor(a, b) == Xor(b, a)
    ensures Xor(Xor(a, b), b) == a
  {
  }

  lemma XorZero(a: bv32, b: bv32)
    requires Xor(a, b) == 0
    ensures a == b
  {
  }

  lemma XorAssociative(a: bv32, b: bv32, c: bv32)
    ensures Xor(Xor(a, b), c) == Xor(a, Xor(b, c))
  {
  }

  lemma XorShuffle(a: bv32, b: bv32, c: bv32, d: bv32)
    ensures Xor(Xor(a, b), Xor(c, d)) == Xor(Xor(a, c), Xor(b, d))
  {
    hide Xor;
    XorAssociative(a, b, Xor(c, d));
    XorAssociative(b, c, d);
    XorLaws(b, c);
    XorAssociative(c, b, d);
    XorAssociative(a, c, Xor(b, d));
  }

  lemma HalfLinear(a: bv32, b: bv32)
    ensures HalfOf(Xor(a, b)) == Xor(HalfOf(a), HalfOf(b))
  {
  }

  lemma FeedbackLinear(a: bv32, b: bv32)
    ensures Feedback(Xor(a, b)) == Xor(Feedback(a), Feedback(b))
  {
    assert (Xor(a, b) & 1 == 1) == ((a & 1 == 1) != (b & 1 == 1));
  }

  lemma BitStepLinear(a: bv32, b: bv32)
    ensures BitStep(Xor(a, b)) == Xor(BitStep(a), BitStep(b))
  {
    hide Xor;
    hide HalfOf;
    hide Feedback;
    HalfLinear(a, b);
    FeedbackLinear(a, b);
    XorShuffle(HalfOf(a), HalfOf(b), Feedback(a), Feedback(b));
  }

  lemma {:induction false} StepsLinear(a: bv32, b: bv32, n: nat)
    ensures Steps(Xor(a, b), n) == Xor(Steps(a, n), Steps(b, n))
    decreases n
  {
    hide BitStep;
    hide Xor;
    if n > 0 {
      StepsLinear(a, b, n - 1);
      BitStepLinear(Steps(a, n - 1), Steps(b, n - 1));
    }
  }

  /** The polynomial has its top bit set, so no step sends a nonzero register to zero. */
  lemma BitStepZero(a: bv32)
    requires BitStep(a) == 0
    ensures a == 0
  {
  }

  lemma {:induction false} StepsZero(a: bv32, n: nat)
    requires Steps(a, n) == 0
    ensures a == 0
    decreases n
  {
    hide BitStep;
    if n > 0 {
      BitStepZero(Steps(a, n - 1));
      StepsZero(a, n - 1);
    }
  }

  lemma {:induction false} StepsInjective(a: bv32, b: bv32, n: nat)
    requires Steps(a, n) == Steps(b, n)
    ensures a == b
  {
    hide *;
    StepsLinear(a, b, n);
    XorLaws(Steps(a, n), 0);
    StepsZero(Xor(a, b), n);
    XorZero(a, b);
  }

  /** How far two registers are apart after one byte each. */
  lemma AbsorbDifference(r: bv32, s: bv32, b: Byte, d: Byte)
    ensures Xor(Absorb(r, b), Absorb(s, d)) == Steps(Xor(Xor(r, s), Xor(Word(b), Word(d))), 8)
  {
    hide Xor;
    hide Word;
    hide Steps;
    StepsLinear(Xor(r, Word(b)), Xor(s, Word(d)), 8);
    XorShuffle(r, Word(b), s, Word(d));
  }

  lemma {:induction false} RegisterInjective(r: bv32, s: bv32, data: seq<Byte>)
    requires Register(r, data) == Register(s, data)
    ensures r == s
    decreases |data|
  {
    hide Absorb;
    hide Xor;
    hide Word;
    if data != [] {
      RegisterInjective(Absorb(r, data[0]), Absorb(s, data[0]), data[1..]);
      AbsorbDifference(r, s, data[0], data[0]);
      XorLaws(Absorb(r, data[0]), 0);
      XorLaws(Word(data[0]), 0);
      XorLaws(Xor(r, s), 0);
      StepsZero(Xor(r, s), 8);
      XorZero(r, s);
    }
  }

  // Eight steps undo a shift by a byte, so the register can be traced back over four bytes.

  function Double(b: bv32): bv32 { b << 1 }

  predicate TopClear(b: bv32) { b & 0x8000_0000 == 0 }

  lemma BitStepDouble(b: bv32)
    requires TopClear(b)
    ensures BitStep(Double(b)) == b
  {
    assert HalfOf(Double(b)) == b;
    assert Feedback(Double(b)) == 0;
    hide HalfOf;
    hide Feedback;
    hide Double;
  }

  function Lift(b: bv32, n: nat): bv32 { if n == 0 then b else Double(Lift(b, n - 1)) }

  lemma {:induction false} StepsLift(b: bv32, n: nat)
    requires forall i :: 0 <= i < n ==> TopClear(Lift(b, i))
    ensures Steps(Lift(b, n), n) == b
    decreases n
  {
    hide BitStep;
    hide Double;
    hide TopClear;
    if n > 0 {
      BitStepDouble(Lift(b, n - 1));
      StepsOfStep(Lift(b, n), n - 1);
      StepsLift(b, n - 1);
    }
  }

  lemma {:induction false} StepsOfStep(crc: bv32, n: nat)
    ensures Steps(crc, n + 1) == Steps(BitStep(crc), n)
    decreases n
  {
    hide BitStep;
    if n > 0 {
      StepsOfStep(crc, n - 1);
    } else {
      assert Steps(crc, 1) == BitStep(Steps(crc, 0));
    }
  }

  lemma EightLifts(b: bv32)
    requires b & 0xFF00_0000 == 0
    ensures Lift(b, 8) == b << 8
    ensures forall i :: 0 <= i < 8 ==> TopClear(Lift(b, i))
  {
    assert Lift(b, 1) == b << 1;
    assert Lift(b, 2) == b << 2;
    assert Lift(b, 3) == b << 3;
    assert Lift(b, 4) == b << 4;
    assert Lift(b, 5) == b << 5;
    assert Lift(b, 6) == b << 6;
    assert Lift(b, 7) == b << 7;
    forall i | 0 <= i < 8
      ensures TopClear(Lift(b, i))
    {
      assert i == 0 || i == 1 || i == 2 || i == 3 || i == 4 || i == 5 || i == 6 || i == 7;
    }
  }

  /** A difference of fewer than 25 bits after a byte comes only from its own shift. */
  lemma TraceBack(difference: bv32, after: bv32)
    requires Steps(difference, 8) == after && after & 0xFF00_0000 == 0
    ensures difference == after << 8
  {
    hide *;
    EightLifts(after);
    StepsLift(after, 8);
    StepsInjective(difference, Lift(after, 8), 8);
  }

  lemma ByteRoundTrip(b: Byte)
    ensures (b as bv8) as nat == b
  {
    assert b % 256 == b;
  }

  lemma WidenInjective(b: bv8, d: bv8)
    requires b as bv32 == d as bv32
    ensures b == d
  {
  }

  lemma WordInjective(b: Byte, d: Byte)
    requires Word(b) == Word(d)
    ensures b == d
  {
    WidenInjective(b as bv8, d as bv8);
    ByteRoundTrip(b);
    ByteRoundTrip(d);
  }

  predicate LowByte(e: bv32) { e & 0xFFFF_FF00 == 0 }

  lemma WordIsByte(b: Byte, d: Byte)
    ensures LowByte(Xor(Word(b), Word(d)))
  {
    ByteXor(b as bv8, d as bv8);
  }

  lemma ByteXor(b: bv8, d: bv8)
    ensures ((b as bv32) ^ (d as bv32)) & 0xFFFF_FF00 == 0
  {
  }

  /** Byte differences e0, ..., e3 that cancel after 32 steps are all zero. */
  lemma NoCancellation(e0: bv32, e1: bv32, e2: bv32, e3: bv32)
    requires LowByte(e0) && LowByte(e1) && LowByte(e2) && LowByte(e3)
    requires Steps(Xor(Steps(Xor(Steps(Xor(Steps(e0, 8), e1), 8), e2), 8), e3), 8) == 0
    ensures e0 == 0 && e1 == 0 && e2 == 0 && e3 == 0
  {
    hide *;
    var d1 := Steps(e0, 8);
    var d2 := Steps(Xor(d1, e1), 8);
    var d3 := Steps(Xor(d2, e2), 8);
    var f2 := Carried(e3, e2);
    var f1 := Carried(f2, e1);
    CarriesFit(e1, e2, e3);
    StepsZero(Xor(d3, e3), 8);
    XorZero(d3, e3);
    StepBack(d2, e2, e3);
    StepBack(d1, e1, f2);
    TraceBackByte(e0, f1);
    FourBytesApart(e0, e1, e2, e3);
  }

  /** One byte further back: the difference shifted, with the byte difference taken out. */
  function Carried(f: bv32, e: bv32): bv32 { (f << 8) ^ e }

  predicate Fits(f: bv32) { f & 0xFF00_0000 == 0 }

  lemma CarriesFit(e1: bv32, e2: bv32, e3: bv32)
    requires LowByte(e1) && LowByte(e2) && LowByte(e3)
    ensures Fits(e3) && Fits(Carried(e3, e2)) && Fits(Carried(Carried(e3, e2), e1))
  {
  }

  lemma StepBack(d: bv32, e: bv32, after: bv32)
    requires Steps(Xor(d, e), 8) == after && Fits(after)
    ensures d == Carried(after, e)
  {
    hide Steps;
    hide Xor;
    TraceBack(Xor(d, e), after);
    MoveXor(d, e, after << 8);
  }

  lemma TraceBackByte(e: bv32, after: bv32)
    requires Steps(e, 8) == after && Fits(after)
    ensures e == Carried(after, 0)
  {
    hide Steps;
    TraceBack(e, after);
  }

  lemma MoveXor(d: bv32, e: bv32, f: bv32)
    requires Xor(d, e) == f
    ensures d == f ^ e
  {
    XorLaws(d, e);
    assert Xor(Xor(d, e), e) == f ^ e;
  }

  lemma FourBytesApart(e0: bv32, e1: bv32, e2: bv32, e3: bv32)
    requires LowByte(e0) && LowByte(e1) && LowByte(e2) && LowByte(e3)
    requires e0 == Carried(Carried(Carried(e3, e2), e1), 0)
    ensures e0 == 0 && e1 == 0 && e2 == 0 && e3 == 0
  {
  }

  /** From one register, different groups of four bytes lead to different registers. */
  lemma {:induction false} FourBytesInjective(crc: bv32, a: seq<Byte>, b: seq<Byte>)
    requires |a| == |b| == 4
    requires Register(crc, a) == Register(crc, b)
    ensures a == b
  {
    hide *;
    RegisterOfFour(crc, a);
    RegisterOfFour(crc, b);
    var r1, s1 := Absorb(crc, a[0]), Absorb(crc, b[0]);
    var r2, s2 := Absorb(r1, a[1]), Absorb(s1, b[1]);
    var r3, s3 := Absorb(r2, a[2]), Absorb(s2, b[2]);
    var e0, e1 := Xor(Word(a[0]), Word(b[0])), Xor(Word(a[1]), Word(b[1]));
    var e2, e3 := Xor(Word(a[2]), Word(b[2])), Xor(Word(a[3]), Word(b[3]));
    AbsorbDifference(crc, crc, a[0], b[0]);
    XorLaws(crc, 0);
    XorLaws(e0, 0);
    AbsorbDifference(r1, s1, a[1], b[1]);
    AbsorbDifference(r2, s2, a[2], b[2]);
    AbsorbDifference(r3, s3, a[3], b[3]);
    XorLaws(Absorb(r3, a[3]), 0);
    WordIsByte(a[0], b[0]);
    WordIsByte(a[1], b[1]);
    WordIsByte(a[2], b[2]);
    WordIsByte(a[3], b[3]);
    NoCancellation(e0, e1, e2, e3);
    SameByte(a[0], b[0]);
    SameByte(a[1], b[1]);
    SameByte(a[2], b[2]);
    SameByte(a[3], b[3]);
  }

  lemma SameByte(b: Byte, d: Byte)
    requires Xor(Word(b), Word(d)) == 0
    ensures b == d
  {
    hide *;
    XorZero(Word(b), Word(d));
    WordInjective(b, d);
  }

  lemma RegisterOfFour(crc: bv32, a: seq<Byte>)
    requires |a| == 4
    ensures Register(crc, a) == Absorb(Absorb(Absorb(Absorb(crc, a[0]), a[1]), a[2]), a[3])
  {
    hide Absorb;
    assert a[1..][0] == a[1] && a[1..][1..] == a[2..];
    assert a[2..][0] == a[2] && a[2..][1..] == a[3..];
    assert a[3..][0] == a[3] && a[3..][1..] == [];
    var c1 := Absorb(crc, a[0]);
    var c2 := Absorb(c1, a[1]);
    var c3 := Absorb(c2, a[2]);
    assert Register(crc, a) == Register(c1, a[1..]);
    assert Register(c1, a[1..]) == Register(c2, a[2..]);
    assert Register(c2, a[2..]) == Register(c3, a[3..]);
    assert Register(c3, a[3..]) == Register(Absorb(c3, a[3]), []);
  }

  /** Whether `a` and `b` differ only at positions from, ..., from + 3. */
  predicate DifferWithin(a: seq<Byte>, b: seq<Byte>, from: nat)
    requires |a| == |b|
  {
    forall i :: 0 <= i < |a| && !(from <= i < from + 4) ==> a[i] == b[i]
  }

  /** Among the byte sequences that differ from `a` in one such window only, the checksum finds `a`. */
  lemma {:induction false} WindowDetermined(a: seq<Byte>, b: seq<Byte>, from: nat)
    requires |a| == |b| && DifferWithin(a, b, from)
    requires Crc32(a) == Crc32(b)
    ensures a == b
  {
    hide *;
    CrcIsRegister(a, b);
    var start: bv32 := 0xFFFF_FFFF;
    var at := if from <= |a| then from else |a|;
    // Padding moves the window away from the end and keeps equal registers equal.
    var pad: seq<Byte> := [0, 0, 0, 0];
    var pa, pb := a + pad, b + pad;
    RegisterAppend(start, a, pad);
    RegisterAppend(start, b, pad);
    SplitWindow(start, pa, at);
    SplitWindow(start, pb, at);
    SameOutsideWindow(a, b, from, at, pad);
    RegisterInjective(Register(Register(start, pa[..at]), pa[at..at + 4]),
                      Register(Register(start, pb[..at]), pb[at..at + 4]), pa[at + 4..]);
    FourBytesInjective(Register(start, pa[..at]), pa[at..at + 4], pb[at..at + 4]);
    assert pa == pa[..at] + pa[at..at + 4] + pa[at + 4..];
    assert pb == pb[..at] + pb[at..at + 4] + pb[at + 4..];
    assert a == pa[..|a|] && b == pb[..|b|];
  }

  /** Any change within four consecutive bytes changes the checksum. */
  lemma {:induction false} BurstChangesCrc(a: seq<Byte>, b: seq<Byte>, from: nat)
    requires |a| == |b| && a != b
    requires DifferWithin(a, b, from)
    ensures Crc32(a) != Crc32(b)
  {
    if Crc32(a) == Crc32(b) {
      WindowDetermined(a, b, from);
    }
  }

  lemma SameOutsideWindow(a: seq<Byte>, b: seq<Byte>, from: nat, at: nat, pad: seq<Byte>)
    requires |a| == |b| && DifferWithin(a, b, from) && |pad| == 4
    requires at == if from <= |a| then from else |a|
    ensures (a + pad)[..at] == (b + pad)[..at]
    ensures (a + pad)[at + 4..] == (b + pad)[at + 4..]
  {
  }

  lemma CrcIsRegister(a: seq<Byte>, b: seq<Byte>)
    requires Crc32(a) == Crc32(b)
    ensures Register(0xFFFF_FFFF, a) == Register(0xFFFF_FFFF, b)
  {
    hide Register;
    hide Invert;
    var r, s := Register(0xFFFF_FFFF, a), Register(0xFFFF_FFFF, b);
    WordRoundTrip(Invert(r));
    WordRoundTrip(Invert(s));
    InvertInjective(r, s);
  }

  lemma WordRoundTrip(r: bv32)
    ensures (r as nat) as bv32 == r
  {
  }

  lemma InvertInjective(r: bv32, s: bv32)
    requires Invert(r) == Invert(s)
    ensures r == s
  {
  }

  lemma CrcFitsWord(data: seq<Byte>)
    ensures Crc32(data) < 0x1_0000_0000
  {
    hide Register;
  }

  lemma SplitWindow(crc: bv32, data: seq<Byte>, at: nat)
    requires at + 4 <= |data|
    ensures Register(crc, data)
         == Register(Register(Register(crc, data[..at]), data[at..at + 4]), data[at + 4..])
  {
    hide *;
    assert data == data[..at] + (data[at..at + 4] + data[at + 4..]);
    RegisterAppend(crc, data[..at], data[at..at + 4] + data[at + 4..]);
    RegisterAppend(Register(crc, data[..at]), data[at..at + 4], data[at + 4..]);
  }

  // Check values, which fix the start value, the bit order, the polynomial and the final complement.

  lemma Digit1()
    ensures Absorb(0xFFFF_FFFF, 0x31) == 0x7C23_1048
  {
    assert Word(0x31) == 0x31;
    hide Word;
    assert Steps(0xFFFF_FFCE, 2) == 0xD247_7CD3;
    assert Steps(0xFFFF_FFCE, 4) == 0xAFF5_1D84;
    assert Steps(0xFFFF_FFCE, 6) == 0x2BFD_4761;
  }

  lemma Digit2()
    ensures Absorb(0x7C23_1048, 0x32) == 0xB0AC_BB32
  {
    assert Word(0x32) == 0x32;
    hide Word;
    assert Steps(0x7C23_107A, 2) == 0xF2B0_473E;
    assert Steps(0x7C23_107A, 4) == 0xD114_92EF;
    assert Steps(0x7C23_107A, 6) == 0xAF21_E60B;
  }

  lemma Digit3()
    ensures Absorb(0xB0AC_BB32, 0x33) == 0x77B7_9C2D
  {
    assert Word(0x33) == 0x33;
    hide Word;
    assert Steps(0xB0AC_BB01, 2) == 0x5AF7_6F50;
    assert Steps(0xB0AC_BB01, 4) == 0x16BD_DBD4;
    assert Steps(0xB0AC_BB01, 6) == 0x05AF_76F5;
  }

  lemma Digit4()
    ensures Absorb(0x77B7_9C2D, 0x34) == 0x641C_1F5C
  {
    assert Word(0x34) == 0x34;
    hide Word;
    assert Steps(0x77B7_9C19, 2) == 0x6B31_A696;
    assert Steps(0x77B7_9C19, 4) == 0xF774_EA85;
    assert Steps(0x77B7_9C19, 6) == 0x4B01_7B31;
  }

  lemma Digit5()
    ensures Absorb(0x641C_1F5C, 0x35) == 0x340A_C5E3
  {
    assert Word(0x35) == 0x35;
    hide Word;
    assert Steps(0x641C_1F69, 2) == 0x6FDB_464A;
    assert Steps(0x641C_1F69, 4) == 0xF64E_52B2;
    assert Steps(0x641C_1F69, 6) == 0xD02B_178C;
  }

  lemma Digit6()
    ensures Absorb(0x340A_C5E3, 0x36) == 0xF68D_2C9E
  {
    assert Word(0x36) == 0x36;
    hide Word;
    assert Steps(0x340A_C5D5, 2) == 0x7BDE_F0E5;
    assert Steps(0x340A_C5D5, 4) == 0x682B_FDA9;
    assert Steps(0x340A_C5D5, 6) == 0x6CD6_BEFA;
  }

  lemma Digit7()
    ensures Absorb(0xF68D_2C9E, 0x37) == 0xAFFC_9660
  {
    assert Word(0x37) == 0x37;
    hide Word;
    assert Steps(0xF68D_2CA9, 2) == 0x4B7F_0ABA;
    assert Steps(0xF68D_2CA9, 4) == 0xFF67_418E;
    assert Steps(0xF68D_2CA9, 6) == 0xD261_5343;
  }

  lemma Digit8()
    ensures Absorb(0xAFFC_9660, 0x38) == 0x651F_2550
  {
    assert Word(0x38) == 0x38;
    hide Word;
    assert Steps(0xAFFC_9658, 2) == 0x2BFF_2596;
    assert Steps(0xAFFC_9658, 4) == 0xE747_4A45;
    assert Steps(0xAFFC_9658, 6) == 0x4F0D_9301;
  }

  lemma Digit9()
    ensures Absorb(0x651F_2550, 0x39) == 0x340B_C6D9
  {
    assert Word(0x39) == 0x39;
    hide Word;
    assert Steps(0x651F_2569, 2) == 0x6F9B_88CA;
    assert Steps(0x651F_2569, 4) == 0xF65E_6112;
    assert Steps(0x651F_2569, 6) == 0xD02F_1B64;
  }

  /** The text "123456789", on which a CRC is checked by convention. */
  const DIGITS: seq<Byte> := [0x31, 0x32, 0x33, 0x34, 0x35, 0x36, 0x37, 0x38, 0x39]

  lemma RegisterOfDigits()
    ensures Register(0xFFFF_FFFF, [0x31]) == 0x7C23_1048 && Register(0xFFFF_FFFF, DIGITS) == 0x340B_C6D9
  {
    hide Absorb;
    Digit1();
    Digit2();
    Digit3();
    Digit4();
    Digit5();
    Digit6();
    Digit7();
    Digit8();
    Digit9();
    RegisterSnoc(0xFFFF_FFFF, DIGITS[..0], 0x31);
    assert DIGITS[..1] == DIGITS[..0] + [0x31];
    RegisterSnoc(0xFFFF_FFFF, DIGITS[..1], 0x32);
    assert DIGITS[..2] == DIGITS[..1] + [0x32];
    RegisterSnoc(0xFFFF_FFFF, DIGITS[..2], 0x33);
    assert DIGITS[..3] == DIGITS[..2] + [0x33];
    RegisterSnoc(0xFFFF_FFFF, DIGITS[..3], 0x34);
    assert DIGITS[..4] == DIGITS[..3] + [0x34];
    RegisterSnoc(0xFFFF_FFFF, DIGITS[..4], 0x35);
    assert DIGITS[..5] == DIGITS[..4] + [0x35];
    RegisterSnoc(0xFFFF_FFFF, DIGITS[..5], 0x36);
    assert DIGITS[..6] == DIGITS[..5] + [0x36];
    RegisterSnoc(0xFFFF_FFFF, DIGITS[..6], 0x37);
    assert DIGITS[..7] == DIGITS[..6] + [0x37];
    RegisterSnoc(0xFFFF_FFFF, DIGITS[..7], 0x38);
    assert DIGITS[..8] == DIGITS[..7] + [0x38];
    RegisterSnoc(0xFFFF_FFFF, DIGITS[..8], 0x39);
    assert DIGITS[..9] == DIGITS[..8] + [0x39];
    assert DIGITS[..0] == [] && DIGITS[..1] == [0x31] && DIGITS[..9] == DIGITS;
  }

  /** The checksums of the texts "1" and "123456789". */
  lemma {:induction false} CheckValue()
    ensures Crc32([0x31]) == 0x83DC_EFB7 && Crc32(DIGITS) == 0xCBF4_3926
  {
    RegisterOfDigits();
    hide Register;
    assert Invert(0x7C23_1048) == 0x83DC_EFB7 && Invert(0x340B_C6D9) == 0xCBF4_3926;
  }

  predicate IsDigits(data: seq<Byte>) { data == DIGITS }

  lemma DigitsChecked(data: seq<Byte>)
    ensures IsDigits(data) ==> Crc32(data) == 0xCBF4_3926
  {
    CheckValue();
    hide Crc32;
  }
}
