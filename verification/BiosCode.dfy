/** biossums.c: the loops over bios_data, patched in place. */
module BiosCode {
  import opened Common
  import opened BiosImage
  import opened BiosProofs

  class Sums {
    const biosData: array<Byte>

    ghost predicate Valid()
      reads this, biosData
    {
      biosData.Length == LEN_BIOS_DATA
    }

    /** A full image read from the file. */
    constructor (image: Image)
      ensures Valid() && biosData[..] == image && fresh(biosData)
    {
      biosData := new Byte[LEN_BIOS_DATA](i requires 0 <= i < LEN_BIOS_DATA => image[i]);
      new;
      assert biosData[..] == image;
    }

    method GetOffset(k: Kind, start: nat) returns (result: Option<nat>)
      requires Valid()
      ensures result == NextHeader(biosData[..], k, start)
    {
      ghost var data := biosData[..];
      var offset := (start + 15) / 16 * 16;
      hide NextHeader, Signature, Paragraph;
      NextIsScan(data, k, start);
      while offset + 16 < MAX_OFFSET
        invariant Paragraph(offset)
        invariant Scan(data, k, offset) == NextHeader(data, k, start)
        decreases MAX_OFFSET - offset
      {
        NextParagraph(offset);
        offset := offset + 16;
        if biosData[offset..offset + 4] == Signature(k) {
          return Some(offset);
        }
      }
      return None;
    }

    /** calc_value, or nothing if one of its checks ends the program. */
    method CalcValue(k: Kind, offset: nat) returns (value: Option<Byte>)
      requires Valid()
      ensures value == if WellFormed(biosData[..], k, offset) then Some(Calculated(biosData[..], k, offset)) else None
    {
      hide SumBut, Negate;
      if offset + MinHeader(k) > MAX_OFFSET {
        return None;
      }
      var len := Length(biosData[..], k, offset);
      if offset + len > MAX_OFFSET {
        return None;
      }
      if k == Pcmp && (biosData[offset + 40] != 0 || biosData[offset + 41] != 0 || biosData[offset + 42] != 0) {
        return None;
      }
      var sum := SumRange(offset, len, ChecksumAt(k));
      NegateByte(SumBut(biosData[..], offset, len, ChecksumAt(k)));
      value := Some(Negate(sum));
    }

    /** The summing loops, in byte arithmetic; `skip` is left out. */
    method SumRange(offset: nat, len: nat, skip: nat) returns (sum: Byte)
      requires Valid() && offset + len <= LEN_BIOS_DATA
      ensures sum == SumBut(biosData[..], offset, len, skip) % 256
    {
      ghost var data := biosData[..];
      sum := 0;
      var i := 0;
      while i < len
        invariant 0 <= i <= len
        invariant sum == SumBut(data, offset, i, skip) % 256
      {
        ByteStep(SumBut(data, offset, i, skip), biosData[offset + i]);
        if i != skip { sum := AddBytes(sum, biosData[offset + i]); }
        i := i + 1;
      }
    }

    /** One of main's loops: how many headers, and the last one's bytes; not ok if the program exits. */
    method FindAll(k: Kind) returns (ok: bool, hits: nat, offset: nat, current: Byte, calculated: Byte)
      requires Valid()
      ensures ok <==> forall o <- Headers(biosData[..], k, 0) :: WellFormed(biosData[..], k, o)
      ensures ok ==> hits == |Headers(biosData[..], k, 0)|
      ensures ok && hits == 1 ==> Headers(biosData[..], k, 0) == [offset] && WellFormed(biosData[..], k, offset)
      ensures ok && hits == 1 ==> InReach(biosData[..], k, offset) && current == biosData[offset + ChecksumAt(k)]
      ensures ok && hits == 1 ==> calculated == Calculated(biosData[..], k, offset)
    {
      hide WellFormed, Calculated, NextHeader, Signature, Headers, Length, MinHeader, ChecksumAt, Paragraph;
      ghost var data := biosData[..];
      ghost var all := Headers(data, k, 0);
      ghost var found: seq<nat> := [];
      ok, hits, offset, current, calculated := true, 0, 0, 0, 0;
      var next := GetOffset(k, offset);
      while next != None
        invariant next == NextHeader(data, k, offset)
        invariant all == found + Headers(data, k, offset)
        invariant hits == |found| && forall o <- found :: WellFormed(data, k, o)
        invariant hits > 0 ==> offset == found[hits - 1] && WellFormed(data, k, offset) && InReach(data, k, offset)
        invariant hits > 0 ==> calculated == Calculated(data, k, offset) && current == data[offset + ChecksumAt(k)]
        decreases MAX_OFFSET - offset
      {
        HeadersStep(data, k, offset);
        ScanBounds(data, k, offset);
        var at := next.value;
        assert all == found + [at] + Headers(data, k, at);
        assert at in all;
        var value := CalcValue(k, at);
        if value == None {
          ok := false;
          return;
        }
        FormedInReach(data, k, at);
        found := found + [at];
        offset, current, calculated := at, biosData[at + ChecksumAt(k)], value.value;
        hits := hits + 1;
        next := GetOffset(k, offset);
      }
      HeadersStep(data, k, offset);
      assert all == found;
    }

    /** The loop for one kind with the patch after it; false if the program exits. */
    method PatchKind(k: Kind) returns (ok: bool)
      requires Valid()
      modifies biosData
      ensures Valid()
      ensures ok <==> Patch(old(biosData[..]), k) != None
      ensures ok ==> Some(biosData[..]) == Patch(old(biosData[..]), k)
      ensures !ok ==> biosData[..] == old(biosData[..])
    {
      hide WellFormed, Calculated, Headers, Patch, Put;
      ghost var data := biosData[..];
      var hits, offset, current, calculated;
      ok, hits, offset, current, calculated := FindAll(k);
      if !ok {
        PatchExits(data, k);
        return;
      }
      PatchGoesOn(data, k);
      if hits == 1 {
        PutIsUpdate(data, offset + ChecksumAt(k), calculated);
        if current != calculated {
          biosData[offset + ChecksumAt(k)] := calculated;
        }
        assert biosData[..] == data[offset + ChecksumAt(k) := calculated];
      }
    }

    method SealLast()
      requires Valid()
      modifies biosData
      ensures Valid() && biosData[..] == Seal(old(biosData[..]))
    {
      hide Sum, SumBut, Negate;
      ghost var data := biosData[..];
      var sum := SumRange(0, MAX_OFFSET, MAX_OFFSET);
      SumSplit(data, 0, MAX_OFFSET, MAX_OFFSET);
      NegateByte(Sum(data, 0, MAX_OFFSET));
      var value := Negate(sum);
      if biosData[BIOS_OFFSET] != value {
        biosData[BIOS_OFFSET] := value;
      }
      assert biosData[..] == Put(data, BIOS_OFFSET, value);
    }

    /** main, from the full image to what is written back. */
    method Run() returns (written: bool)
      requires Valid()
      modifies biosData
      ensures Valid()
      ensures written <==> Patched(old(biosData[..])) != None
      ensures written ==> Some(biosData[..]) == Patched(old(biosData[..]))
    {
      hide Patch, Seal, PatchAll;
      ghost var start := biosData[..];
      var i := 0;
      while i < |KINDS|
        invariant Valid() && 0 <= i <= |KINDS|
        invariant PatchAll(biosData[..], KINDS[i..]) == PatchAll(start, KINDS)
      {
        PatchAllStep(biosData[..], KINDS[i..]);
        assert KINDS[i..][1..] == KINDS[i + 1..];
        var ok := PatchKind(KINDS[i]);
        if !ok {
          return false;
        }
        i := i + 1;
      }
      assert KINDS[i..] == [];
      NoMoreKinds(biosData[..]);
      SealLast();
      return true;
    }
  }

  lemma {:induction false} PatchExits(data: Image, k: Kind)
    requires exists o <- Headers(data, k, 0) :: !WellFormed(data, k, o)
    ensures Patch(data, k) == None
  {
    hide Headers, WellFormed;
  }

  function AddBytes(x: Byte, y: Byte): Byte {
    if x + y < 256 then x + y else x + y - 256
  }

  lemma ByteStep(sum: nat, b: Byte)
    ensures (sum + b) % 256 == AddBytes(sum % 256, b)
  {
  }

  lemma NegateByte(sum: nat)
    ensures Negate(sum % 256) == Negate(sum)
  {
  }

  lemma {:induction false} NextIsScan(data: Image, k: Kind, o: nat)
    ensures Paragraph((o + 15) / 16 * 16)
    ensures NextHeader(data, k, o) == Scan(data, k, (o + 15) / 16 * 16)
  {
  }

  lemma ScanBounds(data: Image, k: Kind, o: nat)
    ensures var r := NextHeader(data, k, o); r != None ==> o < r.value < MAX_OFFSET
  {
    ScanRange(data, k, (o + 15) / 16 * 16);
  }

  lemma {:induction false} PatchAllStep(data: Image, kinds: seq<Kind>)
    requires kinds != []
    ensures PatchAll(data, kinds)
            == if Patch(data, kinds[0]) == None then None else PatchAll(Patch(data, kinds[0]).value, kinds[1..])
  {
    hide Patch;
  }

  lemma {:induction false} NoMoreKinds(data: Image)
    ensures PatchAll(data, []) == Some(data)
  {
  }
}
