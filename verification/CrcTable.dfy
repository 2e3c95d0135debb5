/** crc.cc: the table, built on the first call, and the byte loop. */
module CrcTable {
  import opened Gf2
  import opened Crc32
  import opened CrcProofs

  predicate Unbuilt(table: seq<bv32>) {
    |table| == 256 && forall i :: 0 <= i < 256 ==> table[i] == 0
  }

  predicate Built(table: seq<bv32>) {
    |table| == 256 && forall i :: 0 <= i < 256 ==> table[i] == TableEntry(i as bv8)
  }

  lemma {:induction false} EightShifts(c: bv32)
    ensures Shifts(c, 8) == Shift1(Shift1(Shift1(Shift1(Shift1(Shift1(Shift1(Shift1(c))))))))
  {
    hide Shift1;
    Four(c);
    Four(Shifts(c, 4));
    hide Shifts;
  }

  /** The entry the lazy test reads is the generator itself. */
  lemma SecondEntry()
    ensures TableEntry(1) == CRC32_POLY
  {
    EightShifts(Widen(1));
    hide Shifts;
  }

  /** So the test of one entry decides whether the whole table is there. */
  lemma LazyTestDecides(table: seq<bv32>)
    requires Unbuilt(table) || Built(table)
    ensures table[1] == 0 <==> !Built(table)
  {
    SecondEntry();
    hide TableEntry;
    assert Built(table) ==> table[1] == TableEntry(1 as bv8);
  }

  lemma {:induction false} ByteStep(table: seq<bv32>, crc: bv32, rest: seq<bv8>)
    requires Built(table) && rest != []
    ensures |table| == 256
    ensures Updates(Xor(Rest(crc), table[(TopByte(crc) ^ rest[0]) as int]), rest[1..]) == Updates(crc, rest)
  {
    hide Xor, Rest, TopByte, TableEntry;
    var index := TopByte(crc) ^ rest[0];
    assert table[index as int] == TableEntry(index);
  }

  lemma {:induction false} NothingLeft(crc: bv32)
    ensures Updates(crc, []) == crc
  {
  }

  class CrcUnit {
    /** A static array: all zeros before the first call. */
    const table: array<bv32>

    ghost predicate Valid()
      reads this, table
    {
      table.Length == 256 && (Unbuilt(table[..]) || Built(table[..]))
    }

    constructor ()
      ensures Valid() && Unbuilt(table[..]) && fresh(table)
    {
      table := new bv32[256](_ => 0);
    }

    method InitCrc32()
      requires table.Length == 256
      modifies table
      ensures Built(table[..])
    {
      var i := 0;
      while i < 256
        invariant 0 <= i <= 256
        invariant forall k :: 0 <= k < i ==> table[k] == TableEntry(k as bv8)
      {
        var c := Widen(i as bv8);
        var j := 8;
        while j > 0
          invariant 0 <= j <= 8
          invariant Shifts(c, j) == TableEntry(i as bv8)
        {
          c := if Top(c) then Xor(Double(c), CRC32_POLY) else Double(c);
          j := j - 1;
        }
        table[i] := c;
        i := i + 1;
      }
    }

    /** Whether or not this is the first call, and whatever was summed before. */
    method Crc32(buf: array<bv8>, len: int) returns (crc: bv32)
      requires Valid() && len <= buf.Length
      modifies table
      ensures Valid() && Built(table[..])
      ensures crc == Crc(buf[..if len < 0 then 0 else len])
      ensures crc == Complement(Divide(0, InvertFirst32(Bits(buf[..if len < 0 then 0 else len]) + Zeros(32))))
    {
      hide Built, Unbuilt, Updates, Xor, Rest, TopByte, Complement, Divide, Bits, InvertFirst32;
      ghost var msg := buf[..if len < 0 then 0 else len];
      LazyTestDecides(table[..]);
      if table[1] == 0 {
        InitCrc32();
      }
      crc := 0xffff_ffff;
      var p, left := 0, len;
      while left > 0
        invariant 0 <= p <= buf.Length && p == |msg| - (if left < 0 then 0 else left)
        invariant Built(table[..]) && msg == buf[..|msg|]
        invariant Updates(crc, msg[p..]) == Updates(0xffff_ffff, msg)
      {
        assert msg[p..][0] == buf[p] && msg[p..][1..] == msg[p + 1..];
        ByteStep(table[..], crc, msg[p..]);
        crc := Xor(Rest(crc), table[(TopByte(crc) ^ buf[p]) as int]);
        p, left := p + 1, left - 1;
      }
      assert msg[p..] == [];
      NothingLeft(crc);
      crc := Complement(crc);
      CrcIsRemainder(msg);
    }
  }
}
