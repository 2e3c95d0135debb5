/** What crc32 computes: a polynomial remainder, with one residue for every message followed by its own CRC. */
module CrcProofs {
  import opened Gf2
  import opened Crc32

  /** The bits of a byte, most significant first. */
  function ByteBits(b: bv8): (r: seq<bool>)
    ensures |r| == 8
  {
    [b & 0x80 != 0, b & 0x40 != 0, b & 0x20 != 0, b & 0x10 != 0, b & 8 != 0, b & 4 != 0, b & 2 != 0, b & 1 != 0]
  }

  function Bits(buf: seq<bv8>): (r: seq<bool>)
    ensures |r| == 8 * |buf|
    decreases |buf|
  {
    if buf == [] then [] else ByteBits(buf[0]) + Bits(buf[1..])
  }

  /** The top n bits of w. */
  function TopBits(w: bv32, n: nat): seq<bool>
    decreases n
  {
    if n == 0 then [] else [Top(w)] + TopBits(Double(w), n - 1)
  }

  function Doubles(w: bv32, n: nat): bv32
    decreases n
  {
    if n == 0 then w else Doubles(Double(w), n - 1)
  }

  // ---------------------------------------------------------------- one byte

  function Low31(w: bv32): bv32 {
    w & 0x7fff_ffff
  }

  lemma SplitTop(w: bv32)
    ensures Xor(Times(Top(w), 0x8000_0000), Low31(w)) == w
    ensures !Top(Low31(w)) && Double(Low31(w)) == Double(w)
  {
    if Top(w) {
      SplitTopSet(w);
    } else {
      SplitTopClear(w);
    }
  }

  lemma SplitTopSet(w: bv32)
    requires w & 0x8000_0000 != 0
    ensures 0x8000_0000 ^ (w & 0x7fff_ffff) == w
  {
  }

  lemma SplitTopClear(w: bv32)
    requires w & 0x8000_0000 == 0
    ensures 0 ^ (w & 0x7fff_ffff) == w
  {
  }

  lemma ShiftLow31(w: bv32)
    ensures Shift1(Low31(w)) == Double(w)
  {
    hide Xor, Top, Double, Low31;
    SplitTop(w);
  }

  lemma FeedTop(c: bv32, w: bv32)
    ensures Shift1(Xor(c, w)) == Xor(Feed1(c, Top(w)), Double(w))
  {
    hide Xor, Top, Double, Shift1, Times, Low31;
    var top, low := Times(Top(w), 0x8000_0000), Low31(w);
    SplitTop(w);
    ShiftLow31(w);
    XorAssoc(c, top, low);
    Shift1Linear(Xor(c, top), low);
  }

  /** Feeding bits one by one is adding them all in and then shifting. */
  lemma {:induction false} FeedWord(c: bv32, w: bv32, n: nat)
    requires Doubles(w, n) == 0
    ensures Feed(c, TopBits(w, n)) == Shifts(Xor(c, w), n)
    decreases n
  {
    XorZero(c);
    hide Xor, Top, Double, Shift1, Feed1;
    if n > 0 {
      FeedTop(c, w);
      FeedWord(Feed1(c, Top(w)), Double(w), n - 1);
      assert TopBits(w, n)[1..] == TopBits(Double(w), n - 1);
    }
  }

  lemma {:induction false} DoublesLast(w: bv32, n: nat)
    ensures Doubles(w, n + 1) == Double(Doubles(w, n))
    decreases n
  {
    hide Double;
    if n > 0 { DoublesLast(Double(w), n - 1); }
  }

  lemma ShiftSteps(w: bv32)
    ensures Double(w) == w << 1 && Double(w << 1) == w << 2 && Double(w << 2) == w << 3 && Double(w << 3) == w << 4
    ensures Double(w << 4) == w << 5 && Double(w << 5) == w << 6 && Double(w << 6) == w << 7 && Double(w << 7) == w << 8
  {
  }

  lemma {:induction false} DoublesShift(w: bv32)
    ensures Doubles(w, 0) == w && Doubles(w, 1) == w << 1 && Doubles(w, 2) == w << 2 && Doubles(w, 3) == w << 3
    ensures Doubles(w, 4) == w << 4 && Doubles(w, 5) == w << 5 && Doubles(w, 6) == w << 6 && Doubles(w, 7) == w << 7
    ensures Doubles(w, 8) == w << 8
  {
    assert Doubles(w, 0) == w;
    hide Double, Doubles;
    ShiftSteps(w);
    DoublesLast(w, 0);
    DoublesLast(w, 1);
    DoublesLast(w, 2);
    DoublesLast(w, 3);
    DoublesLast(w, 4);
    DoublesLast(w, 5);
    DoublesLast(w, 6);
    DoublesLast(w, 7);
  }

  lemma {:induction false} TopBitsAt(w: bv32, n: nat, i: nat)
    requires i < n
    ensures |TopBits(w, n)| == n && TopBits(w, n)[i] == Top(Doubles(w, i))
    decreases n
  {
    hide Top, Double;
    if n > 1 { TopBitsAt(Double(w), n - 1, if i == 0 then 0 else i - 1); }
  }

  lemma TopBitsOfByte(b: bv8)
    ensures TopBits(Widen(b), 8) == ByteBits(b)
    ensures Doubles(Widen(b), 8) == 0
  {
    hide Top, Widen, ByteBits, Doubles, TopBits;
    var w := Widen(b);
    TopBitsAt(w, 8, 0);
    forall i | 0 <= i < 8
      ensures TopBits(w, 8)[i] == ByteBits(b)[i]
    {
      TopBitsAt(w, 8, i);
      ByteBitAt(b, i);
    }
    DoublesShift(w);
    ByteGone(b);
  }

  lemma {:induction false} ByteBitAt(b: bv8, i: nat)
    requires i < 8
    ensures ByteBits(b)[i] == Top(Doubles(Widen(b), i))
  {
    hide Doubles, Top, Widen, ByteBits;
    DoublesShift(Widen(b));
    ByteTops(b);
  }

  lemma ByteTops(b: bv8)
    ensures var w := Widen(b);
            && Top(w) == ByteBits(b)[0]
            && Top(w << 1) == ByteBits(b)[1]
            && Top(w << 2) == ByteBits(b)[2]
            && Top(w << 3) == ByteBits(b)[3]
            && Top(w << 4) == ByteBits(b)[4]
            && Top(w << 5) == ByteBits(b)[5]
            && Top(w << 6) == ByteBits(b)[6]
            && Top(w << 7) == ByteBits(b)[7]
  {
  }

  lemma ByteGone(b: bv8)
    ensures Widen(b) << 8 == 0
  {
  }

  // ---------------------------------------------------------------- the table step

  function Low24(c: bv32): bv32 {
    c & 0x00ff_ffff
  }

  lemma {:induction false} RoomToShift(c: bv32, n: nat)
    requires forall i | 0 <= i < n :: !Top(Doubles(c, i))
    ensures Shifts(c, n) == Doubles(c, n)
    decreases n
  {
    hide Top, Double, Xor;
    if n > 0 {
      assert !Top(Doubles(c, 0));
      forall i | 0 <= i < n - 1
        ensures !Top(Doubles(Double(c), i))
      {
        assert !Top(Doubles(c, i + 1));
      }
      RoomToShift(Double(c), n - 1);
    }
  }

  lemma Low24Shifts(c: bv32)
    ensures Shifts(Low24(c), 8) == Rest(c)
  {
    hide Top, Doubles, Shifts, Low24, Rest;
    forall i | 0 <= i < 8
      ensures !Top(Doubles(Low24(c), i))
    {
      Low24Room(c, i);
    }
    RoomToShift(Low24(c), 8);
    DoublesShift(Low24(c));
    Low24Rest(c);
  }

  lemma {:induction false} Low24Room(c: bv32, i: nat)
    requires i < 8
    ensures !Top(Doubles(Low24(c), i))
  {
    hide Doubles, Top, Low24;
    DoublesShift(Low24(c));
    Low24Tops(c);
  }

  lemma Low24Tops(c: bv32)
    ensures var w := Low24(c);
            && !Top(w) && !Top(w << 1) && !Top(w << 2) && !Top(w << 3)
            && !Top(w << 4) && !Top(w << 5) && !Top(w << 6) && !Top(w << 7)
  {
  }

  lemma Low24Rest(c: bv32)
    ensures Low24(c) << 8 == Rest(c)
  {
  }

  lemma SplitByte(c: bv32, b: bv8)
    ensures Xor(c, Widen(b)) == Xor(Low24(c), Widen(TopByte(c) ^ b))
  {
  }

  /** One table step is eight register steps on the byte added in at the top. */
  lemma UpdateIsShifts(crc: bv32, b: bv8)
    ensures Update(crc, b) == Shifts(Xor(crc, Widen(b)), 8)
  {
    SplitByte(crc, b);
    Low24Shifts(crc);
    hide Xor, Widen, Low24, Rest, Shifts;
    ShiftsLinear(Low24(crc), Widen(TopByte(crc) ^ b), 8);
  }

  lemma {:induction false} UpdatesIsFeed(crc: bv32, buf: seq<bv8>)
    ensures Updates(crc, buf) == Feed(crc, Bits(buf))
    decreases |buf|
  {
    hide Update, ByteBits, Feed, TopBits, Shifts, Xor, Widen, Doubles;
    if buf == [] {
      FeedNothing(crc);
    } else {
      UpdateIsShifts(crc, buf[0]);
      TopBitsOfByte(buf[0]);
      FeedWord(crc, Widen(buf[0]), 8);
      FeedConcat(crc, ByteBits(buf[0]), Bits(buf[1..]));
      UpdatesIsFeed(Update(crc, buf[0]), buf[1..]);
    }
  }

  lemma {:induction false} FeedNothing(crc: bv32)
    ensures Feed(crc, []) == crc
  {
  }

  // ---------------------------------------------------------------- the preload

  lemma {:induction false} FeedPreload(a: bv32, c: bv32, bits: seq<bool>)
    ensures Feed(Xor(a, c), bits) == Xor(Feed(a, bits), Shifts(c, |bits|))
    decreases |bits|
  {
    hide Xor, Feed1, Shift1;
    if bits != [] {
      Feed1Preload(a, c, bits[0]);
      FeedPreload(Feed1(a, bits[0]), Shift1(c), bits[1..]);
    }
  }

  lemma Feed1Preload(a: bv32, c: bv32, bit: bool)
    ensures Feed1(Xor(a, c), bit) == Xor(Feed1(a, bit), Shift1(c))
  {
    hide Xor, Shift1, Times;
    var t := Times(bit, 0x8000_0000);
    XorAssoc(a, c, t);
    XorComm(c, t);
    XorAssoc(a, t, c);
    Shift1Linear(Xor(a, t), c);
  }

  function Ones(n: nat): (r: seq<bool>)
    ensures |r| == n && forall i :: 0 <= i < n ==> r[i]
  {
    seq(n, _ => true)
  }

  function LowOnes(n: nat): bv32
    requires n <= 32
  {
    if n == 0 then 0 else Xor(Double(LowOnes(n - 1)), 1)
  }

  lemma {:induction false} LowOnesValue(n: nat)
    requires n < 32
    ensures LowOnes(n) == ((1 as bv32) << n) - 1
  {
    if n > 0 {
      LowOnesValue(n - 1);
    }
  }

  lemma {:induction false} DivideOnes(n: nat)
    requires n <= 32
    ensures Divide(0, Ones(n)) == LowOnes(n)
  {
    if n > 0 {
      DivideOnes(n - 1);
      assert Ones(n) == Ones(n - 1) + [true];
      LowOnesNotTop(n - 1);
      var r := LowOnes(n - 1);
      assert Divide1(r, true) == Xor(Double(r), 1) by {
        hide Double, Top;
        XorZero(Xor(Double(r), 1));
      }
      hide Divide1, Double, Xor;
      DivideConcat(0, Ones(n - 1), [true]);
    }
  }

  lemma {:induction false} LowOnesNotTop(n: nat)
    requires n < 32
    ensures !Top(LowOnes(n))
  {
    LowOnesValue(n);
    hide LowOnes;
  }

  lemma LowOnes32()
    ensures LowOnes(32) == 0xffff_ffff
  {
    LowOnesValue(31);
  }

  // ---------------------------------------------------------------- the theorem

  /** The preload of the shift register with ones, as the standard words it: the first 32 bits are complemented. */
  function InvertFirst32(bits: seq<bool>): (r: seq<bool>)
    ensures |r| == |bits|
  {
    seq(|bits|, i requires 0 <= i < |bits| => if i < 32 then !bits[i] else bits[i])
  }

  lemma {:induction false} DividePreload(n: nat)
    ensures Divide(0, Ones(32) + Zeros(n)) == Shifts(0xffff_ffff, n)
  {
    hide Divide, Shifts;
    DivideConcat(0, Ones(32), Zeros(n));
    DivideOnes(32);
    LowOnes32();
    DivideZeros(0xffff_ffff, n);
  }

  lemma {:induction false} FeedFromZero(bits: seq<bool>)
    ensures Feed(0, bits) == Divide(0, bits + Zeros(32))
  {
    hide Divide, Shifts, Feed;
    FeedIsDivide(0, bits);
    ShiftsZero(32);
    DivideConcat(0, bits, Zeros(32));
    DivideZeros(Divide(0, bits), 32);
  }

  /**
    crc32 is the complement of the remainder of the message's bits, the first 32 of them complemented
    and 32 zeros appended, on division by the generator.
  */
  lemma {:induction false} CrcIsRemainder(buf: seq<bv8>)
    ensures Crc(buf) == Complement(Divide(0, InvertFirst32(Bits(buf) + Zeros(32))))
  {
    var bits := Bits(buf);
    XorZero(0xffff_ffff);
    hide Divide, Shifts, Feed, Updates, Bits, Xor;
    var padded := bits + Zeros(32);
    UpdatesIsFeed(0xffff_ffff, buf);
    FeedPreload(0, 0xffff_ffff, bits);
    FeedFromZero(bits);
    DividePreload(|bits|);
    var mask := Ones(32) + Zeros(|bits|);
    assert InvertFirst32(padded) == Sum(padded, mask);
    DivideLinear(0, 0, padded, mask);
    XorZero(0);
  }

  // ---------------------------------------------------------------- the residue

  function BigEndian(c: bv32): seq<bv8> {
    [TopByte(c), TopByte(Rest(c)), TopByte(Rest(Rest(c))), TopByte(Rest(Rest(Rest(c))))]
  }

  lemma TopByteLinear(x: bv32, k: bv32)
    ensures TopByte(Xor(x, k)) ^ TopByte(Complement(x)) == TopByte(k) ^ 0xff
    ensures Rest(Xor(x, k)) == Xor(Rest(x), Rest(k))
  {
  }

  /** A register that has met its own complement so far depends on the message only through what is yet to come. */
  lemma UpdateByOwnByte(x: bv32, k: bv32)
    ensures Update(Xor(x, k), TopByte(Complement(x))) == Xor(Rest(x), Update(k, 0xff))
  {
    TopByteLinear(x, k);
    hide Xor, Rest, TopByte, Complement, Shifts;
    XorAssoc(Rest(x), Rest(k), TableEntry(TopByte(k) ^ 0xff));
  }

  lemma RestOfComplement(c: bv32)
    ensures TopByte(Rest(Complement(c))) == TopByte(Complement(Rest(c)))
    ensures TopByte(Rest(Rest(Complement(c)))) == TopByte(Complement(Rest(Rest(c))))
    ensures TopByte(Rest(Rest(Rest(Complement(c))))) == TopByte(Complement(Rest(Rest(Rest(c)))))
    ensures Rest(Rest(Rest(Rest(c)))) == 0
  {
  }

  lemma {:induction false} UpdatesFour(c: bv32, b0: bv8, b1: bv8, b2: bv8, b3: bv8)
    ensures Updates(c, [b0, b1, b2, b3]) == Update(Update(Update(Update(c, b0), b1), b2), b3)
  {
    hide Update;
    var c1 := Update(c, b0);
    var c2 := Update(c1, b1);
    var c3 := Update(c2, b2);
    assert [b0, b1, b2, b3][1..] == [b1, b2, b3];
    assert [b1, b2, b3][1..] == [b2, b3];
    assert [b2, b3][1..] == [b3];
    assert Updates(c, [b0, b1, b2, b3]) == Updates(c1, [b1, b2, b3]);
    assert Updates(c1, [b1, b2, b3]) == Updates(c2, [b2, b3]);
    assert Updates(c2, [b2, b3]) == Updates(c3, [b3]) == Updates(Update(c3, b3), []);
  }

  lemma {:induction false} UpdatesConcat(c: bv32, xs: seq<bv8>, ys: seq<bv8>)
    ensures Updates(c, xs + ys) == Updates(Updates(c, xs), ys)
    decreases |xs|
  {
    hide Update;
    if xs == [] {
      assert xs + ys == ys;
    } else {
      assert (xs + ys)[1..] == xs[1..] + ys;
      UpdatesConcat(Update(c, xs[0]), xs[1..], ys);
    }
  }

  lemma {:induction false} OwnCrc(c: bv32)
    ensures Updates(c, BigEndian(Complement(c))) == Updates(0, [0xff, 0xff, 0xff, 0xff])
  {
    XorZero(c);
    RestOfComplement(c);
    var k4 := Update(Update(Update(Update(0, 0xff), 0xff), 0xff), 0xff);
    XorZero(k4);
    hide Xor, Rest, TopByte, Complement, Update, Updates;
    var k1 := Update(0, 0xff);
    var k2 := Update(k1, 0xff);
    var k3 := Update(k2, 0xff);
    UpdateByOwnByte(c, 0);
    UpdateByOwnByte(Rest(c), k1);
    UpdateByOwnByte(Rest(Rest(c)), k2);
    UpdateByOwnByte(Rest(Rest(Rest(c))), k3);
    UpdatesFour(0, 0xff, 0xff, 0xff, 0xff);
    var w := Complement(c);
    UpdatesFour(c, TopByte(w), TopByte(Rest(w)), TopByte(Rest(Rest(w))), TopByte(Rest(Rest(Rest(w)))));
  }

  /** crc32 of any message followed by its own crc32, high byte first, is one constant. */
  lemma Residue(msg: seq<bv8>)
    ensures Crc(msg + BigEndian(Crc(msg))) == 0x38fb_2284
  {
    hide Updates, BigEndian;
    var c := Updates(0xffff_ffff, msg);
    UpdatesConcat(0xffff_ffff, msg, BigEndian(Complement(c)));
    OwnCrc(c);
    ResidueValue();
  }

  lemma {:induction false} Four(c: bv32)
    ensures Shifts(c, 4) == Shift1(Shift1(Shift1(Shift1(c))))
    ensures Shifts(c, 8) == Shifts(Shifts(c, 4), 4)
  {
    hide Shift1;
    ShiftsAdd(c, 4, 4);
    var c1 := Shift1(c);
    assert Shifts(c, 4) == Shifts(c1, 3) == Shifts(Shift1(c1), 2) == Shifts(Shift1(Shift1(c1)), 1);
  }

  lemma ResidueStep(k: bv32, mid: bv32, next: bv32)
    requires mid == Shift1(Shift1(Shift1(Shift1(Widen(TopByte(k) ^ 0xff)))))
    requires next == Xor(Rest(k), Shift1(Shift1(Shift1(Shift1(mid)))))
    ensures Update(k, 0xff) == next
  {
    hide Shift1, Xor, Rest, TopByte, Widen, Shifts;
    Four(Widen(TopByte(k) ^ 0xff));
    Four(mid);
  }

  lemma ResidueValue()
    ensures Complement(Updates(0, [0xff, 0xff, 0xff, 0xff])) == 0x38fb_2284
  {
    hide Updates;
    ResidueStep(0, 0xc84f_bdbd, 0xb1f7_40b4);
    ResidueStep(0xb1f7_40b4, 0xf304_76dc, 0xff48_647d);
    ResidueStep(0xff48_647d, 0, 0x4864_7d00);
    ResidueStep(0x4864_7d00, 0x5b4b_cb61, 0xc704_dd7b);
    UpdatesFour(0, 0xff, 0xff, 0xff, 0xff);
    hide Update;
  }
}
