/**
  The byte-table CRC-32 against long division of bit strings by the generator polynomial
  x^32 + x^26 + x^23 + x^22 + x^16 + x^12 + x^11 + x^10 + x^8 + x^7 + x^5 + x^4 + x^2 + x + 1
  of IEEE 802.3 (clause 3.2.9), most significant bit first.
*/
module Gf2 {
  /** Addition of polynomials. The operators are named so that proofs can use their laws alone. */
  function Xor(a: bv32, b: bv32): bv32 {
    a ^ b
  }

  /** Multiplication by x, without the carry. */
  function Double(a: bv32): bv32 {
    a << 1
  }

  /** Whether doubling carries. */
  predicate Top(a: bv32) {
    a & 0x8000_0000 != 0
  }

  lemma XorZero(a: bv32)
    ensures Xor(a, 0) == a && Xor(0, a) == a && Xor(a, a) == 0
  {
  }

  lemma XorAssoc(a: bv32, b: bv32, c: bv32)
    ensures Xor(Xor(a, b), c) == Xor(a, Xor(b, c))
  {
  }

  lemma XorComm(a: bv32, b: bv32)
    ensures Xor(a, b) == Xor(b, a)
  {
  }

  lemma XorSwap(a: bv32, b: bv32, c: bv32, d: bv32)
    ensures Xor(Xor(a, b), Xor(c, d)) == Xor(Xor(a, c), Xor(b, d))
  {
    hide Xor;
    XorAssoc(a, b, Xor(c, d));
    XorAssoc(b, c, d);
    XorComm(b, c);
    XorAssoc(c, b, d);
    XorAssoc(a, c, Xor(b, d));
  }

  lemma DoubleLinear(a: bv32, b: bv32)
    ensures Double(Xor(a, b)) == Xor(Double(a), Double(b))
  {
  }

  lemma TopLinear(a: bv32, b: bv32)
    ensures Top(Xor(a, b)) <==> Top(a) != Top(b)
  {
  }
}

module Crc32 {
  import opened Gf2

  /** The generator without its x^32 term. */
  const CRC32_POLY: bv32 := 0x04c11db7

  function Times(bit: bool, p: bv32): bv32 {
    if bit then p else 0
  }

  lemma TimesLinear(x: bool, y: bool, p: bv32)
    ensures Times(x != y, p) == Xor(Times(x, p), Times(y, p))
  {
    XorZero(p);
    XorZero(0);
    hide Xor;
  }

  // ---------------------------------------------------------------- long division

  /** Bring down one more bit of the dividend; subtract the divisor when a bit falls out at the top. */
  function Divide1(r: bv32, bit: bool): bv32 {
    Xor(Xor(Double(r), Times(bit, 1)), Times(Top(r), CRC32_POLY))
  }

  /** The remainder after dividing on with `bits`, from remainder r. */
  function Divide(r: bv32, bits: seq<bool>): bv32
    decreases |bits|
  {
    if bits == [] then r else Divide(Divide1(r, bits[0]), bits[1..])
  }

  // ---------------------------------------------------------------- the program's arithmetic

  /** One round of init_crc32's inner loop. */
  function Shift1(c: bv32): bv32 {
    if Top(c) then Xor(Double(c), CRC32_POLY) else Double(c)
  }

  function Shifts(c: bv32, n: nat): bv32
    decreases n
  {
    if n == 0 then c else Shifts(Shift1(c), n - 1)
  }

  function Widen(b: bv8): bv32 {
    (b as bv32) << 24
  }

  /** crc32_table[i] */
  function TableEntry(i: bv8): bv32 {
    Shifts(Widen(i), 8)
  }

  function TopByte(c: bv32): bv8 {
    ((c >> 24) & 0xff) as bv8
  }

  function Rest(c: bv32): bv32 {
    c << 8
  }

  /** One byte of crc32's loop. */
  function Update(crc: bv32, b: bv8): bv32 {
    Xor(Rest(crc), TableEntry(TopByte(crc) ^ b))
  }

  function Updates(crc: bv32, buf: seq<bv8>): bv32
    decreases |buf|
  {
    if buf == [] then crc else Updates(Update(crc, buf[0]), buf[1..])
  }

  function Complement(c: bv32): bv32 {
    c ^ 0xffff_ffff
  }

  /** What crc32(buf, len) returns. */
  function Crc(buf: seq<bv8>): bv32 {
    Complement(Updates(0xffff_ffff, buf))
  }

  // ---------------------------------------------------------------- linearity

  lemma Shift1Form(c: bv32)
    ensures Shift1(c) == Xor(Double(c), Times(Top(c), CRC32_POLY))
  {
    hide Xor, Double, Top;
    XorZero(Double(c));
  }

  lemma Shift1Linear(a: bv32, b: bv32)
    ensures Shift1(Xor(a, b)) == Xor(Shift1(a), Shift1(b))
  {
    hide Xor, Double, Top, Shift1, Times;
    Shift1Form(Xor(a, b));
    Shift1Form(a);
    Shift1Form(b);
    DoubleLinear(a, b);
    TopLinear(a, b);
    TimesLinear(Top(a), Top(b), CRC32_POLY);
    XorSwap(Double(a), Double(b), Times(Top(a), CRC32_POLY), Times(Top(b), CRC32_POLY));
  }

  lemma {:induction false} ShiftsLinear(a: bv32, b: bv32, n: nat)
    ensures Shifts(Xor(a, b), n) == Xor(Shifts(a, n), Shifts(b, n))
    decreases n
  {
    hide Shift1, Xor;
    if n > 0 {
      Shift1Linear(a, b);
      ShiftsLinear(Shift1(a), Shift1(b), n - 1);
    }
  }

  lemma {:induction false} ShiftsLast(c: bv32, n: nat)
    ensures Shifts(c, n + 1) == Shift1(Shifts(c, n))
    decreases n
  {
    hide Shift1;
    if n > 0 { ShiftsLast(Shift1(c), n - 1); }
  }

  lemma {:induction false} ShiftsAdd(c: bv32, m: nat, n: nat)
    ensures Shifts(c, m + n) == Shifts(Shifts(c, m), n)
    decreases m
  {
    hide Shift1;
    if m > 0 { ShiftsAdd(Shift1(c), m - 1, n); }
  }

  lemma {:induction false} ShiftsZero(n: nat)
    ensures Shifts(0, n) == 0
    decreases n
  {
    assert Shift1(0) == 0;
    hide Shift1;
    if n > 0 { ShiftsZero(n - 1); }
  }

  lemma Divide1Form(r: bv32, bit: bool)
    ensures Divide1(r, bit) == Xor(Shift1(r), Times(bit, 1))
  {
    hide Xor, Double, Top, Times, Shift1;
    Shift1Form(r);
    XorAssoc(Double(r), Times(bit, 1), Times(Top(r), CRC32_POLY));
    XorComm(Times(bit, 1), Times(Top(r), CRC32_POLY));
    XorAssoc(Double(r), Times(Top(r), CRC32_POLY), Times(bit, 1));
  }

  lemma Divide1Linear(a: bv32, b: bv32, x: bool, y: bool)
    ensures Divide1(Xor(a, b), x != y) == Xor(Divide1(a, x), Divide1(b, y))
  {
    hide Xor, Divide1, Times, Shift1;
    Divide1Form(Xor(a, b), x != y);
    Divide1Form(a, x);
    Divide1Form(b, y);
    Shift1Linear(a, b);
    TimesLinear(x, y, 1);
    XorSwap(Shift1(a), Shift1(b), Times(x, 1), Times(y, 1));
  }

  function Sum(xs: seq<bool>, ys: seq<bool>): (r: seq<bool>)
    requires |xs| == |ys|
    ensures |r| == |xs|
  {
    seq(|xs|, i requires 0 <= i < |xs| => xs[i] != ys[i])
  }

  /** The remainder of a sum is the sum of the remainders. */
  lemma {:induction false} DivideLinear(a: bv32, b: bv32, xs: seq<bool>, ys: seq<bool>)
    requires |xs| == |ys|
    ensures Divide(Xor(a, b), Sum(xs, ys)) == Xor(Divide(a, xs), Divide(b, ys))
    decreases |xs|
  {
    hide Divide1, Xor;
    if xs != [] {
      Divide1Linear(a, b, xs[0], ys[0]);
      DivideLinear(Divide1(a, xs[0]), Divide1(b, ys[0]), xs[1..], ys[1..]);
      assert Sum(xs, ys)[1..] == Sum(xs[1..], ys[1..]);
    }
  }

  lemma {:induction false} DivideConcat(r: bv32, xs: seq<bool>, ys: seq<bool>)
    ensures Divide(r, xs + ys) == Divide(Divide(r, xs), ys)
    decreases |xs|
  {
    hide Divide1;
    if xs == [] {
      assert xs + ys == ys;
    } else {
      assert (xs + ys)[1..] == xs[1..] + ys;
      DivideConcat(Divide1(r, xs[0]), xs[1..], ys);
    }
  }

  function Zeros(n: nat): (r: seq<bool>)
    ensures |r| == n && forall i :: 0 <= i < n ==> !r[i]
  {
    seq(n, _ => false)
  }

  /** Dividing on with zeros is shifting. */
  lemma {:induction false} DivideZeros(c: bv32, n: nat)
    ensures Divide(c, Zeros(n)) == Shifts(c, n)
    decreases n
  {
    hide Divide1, Shift1, Xor;
    if n > 0 {
      assert Zeros(n)[1..] == Zeros(n - 1);
      Divide1Form(c, false);
      XorZero(Shift1(c));
      DivideZeros(Shift1(c), n - 1);
    }
  }

  // ---------------------------------------------------------------- the shift register

  /** The register fed at its top. */
  function Feed1(c: bv32, bit: bool): bv32 {
    Shift1(Xor(c, Times(bit, 0x8000_0000)))
  }

  function Feed(c: bv32, bits: seq<bool>): bv32
    decreases |bits|
  {
    if bits == [] then c else Feed(Feed1(c, bits[0]), bits[1..])
  }

  lemma {:induction false} FeedConcat(c: bv32, xs: seq<bool>, ys: seq<bool>)
    ensures Feed(c, xs + ys) == Feed(Feed(c, xs), ys)
    decreases |xs|
  {
    hide Feed1;
    if xs == [] {
      assert xs + ys == ys;
    } else {
      assert (xs + ys)[1..] == xs[1..] + ys;
      FeedConcat(Feed1(c, xs[0]), xs[1..], ys);
    }
  }

  function Power(n: nat): bv32
    requires n < 32
  {
    if n == 0 then 1 else Double(Power(n - 1))
  }

  lemma {:induction false} PowerValue(n: nat)
    requires n < 32
    ensures Power(n) == (1 as bv32) << n
  {
    if n > 0 {
      PowerValue(n - 1);
    }
  }

  /** A set low bit stays clear of the top for 31 shifts, and is then the top bit. */
  lemma {:induction false} OneShifted(n: nat)
    requires n < 32
    ensures Shifts(1, n) == Power(n)
  {
    if n > 0 {
      OneShifted(n - 1);
      ShiftsLast(1, n - 1);
      PowerNotTop(n - 1);
      hide Double, Top;
    }
  }

  lemma {:induction false} PowerNotTop(n: nat)
    requires n < 31
    ensures !Top(Power(n))
  {
    PowerValue(n);
    hide Power;
  }

  /** Bringing a bit down at the bottom, 32 shifts early, is feeding it in at the top. */
  lemma {:induction false} FeedIsDivide1(r: bv32, bit: bool)
    ensures Shifts(Divide1(r, bit), 32) == Feed1(Shifts(r, 32), bit)
  {
    hide Shift1, Divide1, Xor;
    var low, top := Times(bit, 1), Times(bit, 0x8000_0000);
    Divide1Form(r, bit);
    ShiftsLinear(Shift1(r), low, 32);
    ShiftsLast(r, 32);
    ShiftsLast(low, 31);
    LowShifted(bit);
    Shift1Linear(Shifts(r, 32), top);
    assert Shifts(Shift1(r), 32) == Shifts(r, 33);
  }

  lemma LowShifted(bit: bool)
    ensures Shifts(Times(bit, 1), 31) == Times(bit, 0x8000_0000)
  {
    hide Shifts;
    if bit {
      OneShifted(31);
      PowerValue(31);
    } else {
      ShiftsZero(31);
    }
  }

  lemma {:induction false} FeedIsDivide(r: bv32, bits: seq<bool>)
    ensures Shifts(Divide(r, bits), 32) == Feed(Shifts(r, 32), bits)
    decreases |bits|
  {
    hide Feed1, Divide1, Shifts;
    if bits != [] {
      FeedIsDivide1(r, bits[0]);
      FeedIsDivide(Divide1(r, bits[0]), bits[1..]);
    }
  }
}
