/** The headers as their specifications lay them out, byte by byte, and what the program does to those bytes. */
module BiosLayout {
  import opened Common
  import opened BiosImage
  import opened BiosProofs

  /** The four characters at a paragraph boundary past the first. */
  predicate Spells(a: Image, text: string, o: nat) {
    && |text| == 4 && o % 16 == 0 && 0 < o && o + 16 <= 0x10000
    && a[o] == text[0] as int && a[o + 1] == text[1] as int && a[o + 2] == text[2] as int && a[o + 3] == text[3] as int
  }

  function Text(k: Kind): (r: string)
    ensures |r| == 4
  {
    match k
    case Pci => "_32_"
    case Mp => "_MP_"
    case Pcmp => "PCMP"
    case Pir => "$PIR"
    case Pnp => "$PnP"
  }

  lemma HeaderText(a: Image, k: Kind, o: nat)
    ensures Header(a, k, o) <==> Spells(a, Text(k), o)
  {
    if o % 16 == 0 && 0 < o < 0xffff {
      assert o + 16 <= 0x10000;
      assert a[o..o + 4] == [a[o], a[o + 1], a[o + 2], a[o + 3]];
    }
  }

  /** The text is there once. */
  ghost predicate Only(a: Image, text: string, o: nat) {
    Spells(a, text, o) && forall x: nat :: Spells(a, text, x) ==> x == o
  }

  /** A header the program gives up on: too near the end, too long, or a PCMP table with an extended part. */
  predicate Broken(a: Image, k: Kind, o: nat)
    requires o + 16 <= 0x10000
  {
    match k
    case Pci => o + 16 > 0xffff || o + 16 * At(a, o + 9) > 0xffff
    case Mp => o + 16 > 0xffff || o + 16 * At(a, o + 8) > 0xffff
    case Pcmp => o + 42 > 0xffff || o + At(a, o + 4) + 256 * At(a, o + 5) > 0xffff || At(a, o + 40) + At(a, o + 41) + At(a, o + 42) > 0
    case Pir => o + 32 > 0xffff || o + At(a, o + 6) + 256 * At(a, o + 7) > 0xffff
    case Pnp => o + 32 > 0xffff || o + At(a, o + 5) > 0xffff
  }

  lemma BrokenIs(a: Image, k: Kind, o: nat)
    requires o % 16 == 0 && o + 16 <= 0x10000
    ensures Broken(a, k, o) <==> !WellFormed(a, k, o)
  {
  }

  /** The checksum byte of a header, and how many bytes it is to balance. */
  function Fields(a: Image, k: Kind, o: nat): (nat, nat)
    requires o + 16 <= 0x10000
  {
    match k
    case Pci => (10, 16 * At(a, o + 9))
    case Mp => (10, 16 * At(a, o + 8))
    case Pcmp => (7, At(a, o + 4) + 256 * At(a, o + 5))
    case Pir => (31, At(a, o + 6) + 256 * At(a, o + 7))
    case Pnp => (8, At(a, o + 5))
  }

  /** b is a with one byte set so that, the byte with them, the n bytes from o on add up to 0 mod 256. */
  ghost predicate Balances(a: Image, b: Image, o: nat, c: nat, n: nat)
    requires o + c < 0x10000 && o + n <= 0x10000
  {
    && (forall i: nat :: i < 0x10000 && i != o + c ==> b[i] == a[i])
    && (Sum(b, o, n) + if c < n then 0 else b[o + c]) % 256 == 0
  }

  lemma CalculatedBalances(a: Image, k: Kind, o: nat)
    requires WellFormed(a, k, o) && o % 16 == 0 && o + 16 <= 0x10000
    ensures var (c, n) := Fields(a, k, o);
            && o + c < 0xffff && o + n <= 0xffff
            && Balances(a, Put(a, o + ChecksumAt(k), Calculated(a, k, o)), o, c, n)
  {
    FieldsAre(a, k, o);
    hide Sum, SumBut, Negate, Length, Fields, WellFormed, ChecksumAt, Balances;
    var (c, n) := Fields(a, k, o);
    NegatedBalances(a, o, c, n);
  }

  /** The negated sum of the other bytes balances them. */
  lemma NegatedBalances(a: Image, o: nat, c: nat, n: nat)
    requires o + c < 0xffff && o + n <= 0xffff
    ensures Balances(a, Put(a, o + c, Negate(SumBut(a, o, n, c))), o, c, n)
  {
    hide Sum, SumBut, Negate;
    var rest := SumBut(a, o, n, c);
    var b := Put(a, o + c, Negate(rest));
    NegateSums(rest);
    SumButSame(a, b, o, n, c);
    SumSplit(b, o, n, c);
    assert Sum(b, o, n) + (if c < n then 0 else b[o + c]) == rest + Negate(rest);
  }

  lemma FieldsAre(a: Image, k: Kind, o: nat)
    requires WellFormed(a, k, o) && o % 16 == 0 && o + 16 <= 0x10000
    ensures Fields(a, k, o) == (ChecksumAt(k), Length(a, k, o)) && o + ChecksumAt(k) < 0xffff && o + Length(a, k, o) <= 0xffff
  {
  }

  /**
    One of the five loops and the patch after it: the program stops exactly on a header it gives up on; otherwise the
    byte that balances the header is set, if there is exactly one header, and nothing else is written.
  */
  lemma LoopExactly(a: Image, k: Kind)
    ensures Patch(a, k) == None <==> exists o: nat :: Spells(a, Text(k), o) && Broken(a, k, o)
    ensures Patch(a, k) != None ==>
              && (forall o: nat :: Only(a, Text(k), o) ==>
                    var (c, n) := Fields(a, k, o);
                    o + c < 0xffff && o + n <= 0xffff && Balances(a, Patch(a, k).value, o, c, n))
              && ((forall o: nat :: !Only(a, Text(k), o)) ==> Patch(a, k) == Some(a))
  {
    hide Spells, Broken, Fields, Balances, WellFormed, Headers, Header, Calculated, ChecksumAt, Text, Put, Single;
    forall o: nat
      ensures o in Headers(a, k, 0) <==> Spells(a, Text(k), o)
      ensures Spells(a, Text(k), o) ==> o % 16 == 0 && o + 16 <= 0x10000 && (Broken(a, k, o) <==> !WellFormed(a, k, o))
    {
      HeaderText(a, k, o);
      HeaderFound(a, k, o);
      SpellsWhere(a, Text(k), o);
      if Spells(a, Text(k), o) { BrokenIs(a, k, o); }
    }
    if Patch(a, k) != None {
      forall o: nat
        ensures Single(a, k, o) <==> Only(a, Text(k), o)
        ensures Only(a, Text(k), o) ==>
          var (c, n) := Fields(a, k, o); o + c < 0xffff && o + n <= 0xffff && Balances(a, Patch(a, k).value, o, c, n)
      {
        OnlyIsSingle(a, k, o);
        if Only(a, Text(k), o) {
          PatchOne(a, k, o);
          CalculatedBalances(a, k, o);
        }
      }
      if forall o: nat :: !Only(a, Text(k), o) { NotOne(a, k); }
    }
  }

  lemma SpellsWhere(a: Image, text: string, o: nat)
    ensures Spells(a, text, o) ==> o % 16 == 0 && o + 16 <= 0x10000
  {
  }

  lemma OnlyIsSingle(a: Image, k: Kind, o: nat)
    ensures Single(a, k, o) <==> Only(a, Text(k), o)
  {
    hide Spells, Headers, Header, Single;
    SingleIs(a, k, o);
    forall x: nat
      ensures Header(a, k, x) <==> Spells(a, Text(k), x)
    {
      HeaderText(a, k, x);
    }
  }

  lemma NotOne(a: Image, k: Kind)
    requires Patch(a, k) != None && forall o: nat :: !Single(a, k, o)
    ensures Patch(a, k) == Some(a)
  {
    hide Headers, WellFormed, Calculated;
    var hs := Headers(a, k, 0);
    assert forall x: nat :: hs == [x] ==> Single(a, k, x);
    OneElement(hs);
  }

  lemma OneElement(hs: seq<nat>)
    ensures |hs| == 1 ==> exists x: nat :: hs == [x]
  {
    if |hs| == 1 { assert hs == [hs[0]]; }
  }

  /** The loops run in this order, each on what the one before has left, and the last byte is set at the end. */
  lemma LoopsInOrder(a: Image, a1: Image, a2: Image, a3: Image, a4: Image, a5: Image)
    requires Patch(a, Pci) == Some(a1) && Patch(a1, Mp) == Some(a2) && Patch(a2, Pcmp) == Some(a3)
    requires Patch(a3, Pir) == Some(a4) && Patch(a4, Pnp) == Some(a5)
    ensures Patched(a) != None
    ensures var b := Patched(a).value;
            (forall i: nat :: i < 0xffff ==> b[i] == a5[i]) && Sum(b, 0, 0x10000) % 256 == 0
  {
    hide Patch, Sum, Negate;
    assert PatchAll(a, KINDS) == PatchAll(a1, [Mp, Pcmp, Pir, Pnp]) == PatchAll(a2, [Pcmp, Pir, Pnp])
        == PatchAll(a3, [Pir, Pnp]) == PatchAll(a4, [Pnp]) == PatchAll(a5, []) == Some(a5);
    Sealed(a5);
  }

  /** Byte i is the one at c from the only place that spells the text. */
  ghost predicate OneAt(a: Image, text: string, i: nat, c: nat) {
    i >= c && Only(a, text, i - c)
  }

  /**
    What is written back differs from what was read in the last byte and in the checksum bytes of headers found exactly
    once, and nowhere else.
  */
  lemma OnlyChecksumsWritten(a: Image, i: nat)
    requires Patched(a) != None && i < 0x10000 && Patched(a).value[i] != a[i]
    ensures || i == 0xffff || OneAt(a, "_32_", i, 10) || OneAt(a, "_MP_", i, 10) || OneAt(a, "PCMP", i, 7)
            || OneAt(a, "$PIR", i, 31) || OneAt(a, "$PnP", i, 8)
  {
    hide PatchAll, Sum, Negate, OneAt;
    var b := PatchAll(a, KINDS).value;
    if b[i] != a[i] { WrittenByLoops(a, a, KINDS, i); }
  }

  ghost predicate ChecksumByte(a: Image, i: nat) {
    || OneAt(a, "_32_", i, 10) || OneAt(a, "_MP_", i, 10) || OneAt(a, "PCMP", i, 7)
    || OneAt(a, "$PIR", i, 31) || OneAt(a, "$PnP", i, 8)
  }

  lemma {:induction false} WrittenByLoops(a: Image, b: Image, kinds: seq<Kind>, i: nat)
    requires SameSignatures(a, b) && PatchAll(b, kinds) != None && i < 0x10000 && PatchAll(b, kinds).value[i] != b[i]
    ensures ChecksumByte(a, i)
    decreases |kinds|
  {
    hide Patch, SameSignatures, ChecksumByte;
    if kinds != [] {
      var b' := Patch(b, kinds[0]).value;
      PatchSignatures(b, kinds[0]);
      SameSignaturesMore(a, b, b');
      if b'[i] != b[i] { WrittenByLoop(a, b, kinds[0], i); } else { WrittenByLoops(a, b', kinds[1..], i); }
    }
  }

  lemma WrittenByLoop(a: Image, b: Image, k: Kind, i: nat)
    requires SameSignatures(a, b) && Patch(b, k) != None && i < 0x10000 && Patch(b, k).value[i] != b[i]
    ensures ChecksumByte(a, i)
  {
    hide Patch, SameSignatures, Only, OneAt, Sum;
    LoopExactly(b, k);
    var o: nat :| Only(b, Text(k), o);
    OnlySame(a, b, k, o);
    OnlyWhere(b, Text(k), o);
    OneAtIs(a, Text(k), o, Fields(b, k, o).0);
    hide Spells, Fields, Text;
    ChecksumOf(a, b, k, o, i);
  }

  lemma OnlyWhere(a: Image, text: string, o: nat)
    requires Only(a, text, o)
    ensures o % 16 == 0 && o + 16 <= 0x10000
  {
  }

  lemma OneAtIs(a: Image, text: string, o: nat, c: nat)
    ensures OneAt(a, text, o + c, c) <==> Only(a, text, o)
  {
    hide Only;
  }

  lemma ChecksumOf(a: Image, b: Image, k: Kind, o: nat, i: nat)
    requires o + 16 <= 0x10000 && i == o + Fields(b, k, o).0 && OneAt(a, Text(k), i, Fields(b, k, o).0)
    ensures ChecksumByte(a, i)
  {
    hide OneAt;
  }

  lemma OnlySame(a: Image, b: Image, k: Kind, o: nat)
    requires SameSignatures(a, b)
    ensures Only(a, Text(k), o) <==> Only(b, Text(k), o)
  {
    hide Spells, SignatureAt;
    forall x: nat
      ensures Spells(a, Text(k), x) <==> Spells(b, Text(k), x)
    {
      HeaderText(a, k, x);
      HeaderText(b, k, x);
    }
  }

  /** In an image whose headers are whole and do not overlap, each header found once adds up to 0 in the end. */
  lemma AllBalanced(a: Image, k: Kind, o: nat)
    requires WellLaid(a) && Only(a, Text(k), o)
    ensures Patched(a) != None && o + 16 <= 0x10000
    ensures var b := Patched(a).value;
            var (c, n) := Fields(b, k, o);
            c < n && o + n <= 0xffff && Sum(b, o, n) % 256 == 0
  {
    hide WellLaid, Patched, Sum, Only;
    PatchedRight(a);
    OnlyIsSingle(a, k, o);
    SingleIs(a, k, o);
    HeaderText(a, k, o);
    StaysCovered(a, k, o);
  }

  lemma StaysCovered(a: Image, k: Kind, o: nat)
    requires WellLaid(a) && Header(a, k, o) && Patched(a) != None && WellFormed(Patched(a).value, k, o)
    ensures ChecksumAt(k) < Length(Patched(a).value, k, o)
  {
    hide Header, Single, Stage, WellLaid, Seal, PatchAll, Sum, Length, Apart;
    StartStage(a);
    PatchAllStage(a, a, {}, KINDS);
    assert {} + (set k | k in KINDS) == AnyKind() by { AllKinds(); }
    SealStage(a, PatchAll(a, KINDS).value);
    var c := Patched(a).value;
    StageHeader(a, c, AnyKind(), k, o);
    CoveredBefore(a, k, o);
  }

  lemma CoveredBefore(a: Image, k: Kind, o: nat)
    requires WellLaid(a) && Header(a, k, o)
    ensures WellFormed(a, k, o) && ChecksumAt(k) < Length(a, k, o)
  {
    hide Header, Length, Apart;
  }
}
