/** What the patched image is like, and that patching it again changes nothing. */
module BiosProofs {
  import opened Common
  import opened BiosImage

  // ---------------------------------------------------------------- what the scans find

  predicate Paragraph(o: nat) {
    o % 16 == 0
  }

  lemma {:induction false} ScanFirst(data: Image, k: Kind, o: nat, x: nat)
    requires Paragraph(o) && Paragraph(x) && o < x < MAX_OFFSET && SignatureAt(data, k, x)
    ensures Scan(data, k, o) != None && Scan(data, k, o).value <= x
    decreases MAX_OFFSET - o
  {
    if x != o + 16 && !SignatureAt(data, k, o + 16) { ScanFirst(data, k, o + 16, x); }
  }

  lemma {:induction false} NextIs(data: Image, k: Kind, o: nat)
    requires Paragraph(o)
    ensures NextHeader(data, k, o) == Scan(data, k, o)
  {
    assert (o + 15) / 16 * 16 == o;
  }

  lemma NextParagraph(o: nat)
    requires Paragraph(o)
    ensures Paragraph(o + 16) && (o + 16 < MAX_OFFSET ==> o + 20 <= LEN_BIOS_DATA)
  {
  }

  lemma {:induction false} HeadersStep(data: Image, k: Kind, o: nat)
    ensures var r := NextHeader(data, k, o);
            Headers(data, k, o) == if r == None then [] else [r.value] + Headers(data, k, r.value)
  {
    hide NextHeader;
  }

  lemma NextRange(data: Image, k: Kind, o: nat)
    requires Paragraph(o)
    ensures var r := NextHeader(data, k, o);
            r != None ==> o < r.value < MAX_OFFSET && Paragraph(r.value) && SignatureAt(data, k, r.value)
  {
    hide Scan, SignatureAt;
    NextIs(data, k, o);
    ScanRange(data, k, o);
  }

  /** The loop finds exactly the signatures at paragraph boundaries past the first, in order. */
  lemma {:induction false} HeadersExact(data: Image, k: Kind, o: nat, x: nat)
    requires Paragraph(o)
    ensures x in Headers(data, k, o) <==> Paragraph(x) && o < x < MAX_OFFSET && SignatureAt(data, k, x)
    decreases MAX_OFFSET - o
  {
    hide Headers, NextHeader, Scan, SignatureAt, Paragraph;
    HeadersStep(data, k, o);
    NextRange(data, k, o);
    NextIs(data, k, o);
    if Paragraph(x) && o < x < MAX_OFFSET && SignatureAt(data, k, x) { ScanFirst(data, k, o, x); }
    var r := NextHeader(data, k, o);
    if r != None { HeadersExact(data, k, r.value, x); }
  }

  ghost predicate SameSignatures(a: Image, b: Image) {
    forall k: Kind, x: nat :: Paragraph(x) && x < MAX_OFFSET ==> (SignatureAt(a, k, x) <==> SignatureAt(b, k, x))
  }

  lemma {:induction false} SameScan(a: Image, b: Image, k: Kind, o: nat)
    requires SameSignatures(a, b) && Paragraph(o)
    ensures Scan(a, k, o) == Scan(b, k, o)
    decreases MAX_OFFSET - o
  {
    if o + 16 < MAX_OFFSET {
      assert SignatureAt(a, k, o + 16) <==> SignatureAt(b, k, o + 16);
      SameScan(a, b, k, o + 16);
    }
  }

  lemma {:induction false} SameHeaders(a: Image, b: Image, k: Kind, o: nat)
    requires SameSignatures(a, b) && Paragraph(o)
    ensures Headers(a, k, o) == Headers(b, k, o)
    decreases MAX_OFFSET - o
  {
    hide SameSignatures, SignatureAt;
    NextIs(a, k, o);
    NextIs(b, k, o);
    SameScan(a, b, k, o);
    ScanRange(a, k, o);
    var r := Scan(a, k, o);
    if r != None { SameHeaders(a, b, k, r.value); }
  }

  /** A byte past the fourth of its paragraph is in no signature. */
  lemma PutKeepsSignatures(data: Image, i: nat, b: Byte)
    requires i < LEN_BIOS_DATA && i % 16 >= 4
    ensures SameSignatures(data, Put(data, i, b))
  {
    var data' := Put(data, i, b);
    forall k: Kind, x: nat | Paragraph(x) && x < MAX_OFFSET
      ensures SignatureAt(data, k, x) <==> SignatureAt(data', k, x)
    {
      if x + 4 <= LEN_BIOS_DATA {
        assert !(x <= i < x + 4);
        assert data[x..x + 4] == data'[x..x + 4];
      }
    }
  }

  /** The header a loop finds. */
  predicate Header(data: Image, k: Kind, o: nat) {
    Paragraph(o) && 0 < o < MAX_OFFSET && SignatureAt(data, k, o)
  }

  lemma {:induction false} HeaderFound(data: Image, k: Kind, o: nat)
    ensures Header(data, k, o) <==> o in Headers(data, k, 0)
  {
    HeadersExact(data, k, 0, o);
  }

  lemma ChecksumApart(k: Kind, o: nat)
    requires Paragraph(o)
    ensures (o + ChecksumAt(k)) % 16 >= 4
  {
  }

  // ---------------------------------------------------------------- sums

  lemma {:induction false} SumSplit(data: seq<Byte>, o: nat, n: nat, skip: nat)
    requires o + n <= |data|
    ensures Sum(data, o, n) == SumBut(data, o, n, skip) + if skip < n then data[o + skip] else 0
    decreases n
  {
    if n > 0 { SumSplit(data, o, n - 1, skip); }
  }

  lemma {:induction false} SumButSame(a: seq<Byte>, b: seq<Byte>, o: nat, n: nat, skip: nat)
    requires o + n <= |a| && |b| == |a|
    requires forall x: nat :: o <= x < o + n && x != o + skip ==> a[x] == b[x]
    ensures SumBut(a, o, n, skip) == SumBut(b, o, n, skip)
    decreases n
  {
    if n > 0 { SumButSame(a, b, o, n - 1, skip); }
  }

  lemma NegateSums(sum: nat)
    ensures (sum + Negate(sum)) % 256 == 0
  {
  }

  // ---------------------------------------------------------------- one patch

  predicate InReach(data: Image, k: Kind, o: nat) {
    o + ChecksumAt(k) < LEN_BIOS_DATA
  }

  lemma FormedInReach(data: Image, k: Kind, o: nat)
    requires WellFormed(data, k, o)
    ensures InReach(data, k, o)
  {
  }

  lemma {:induction false} PatchGoesOn(data: Image, k: Kind)
    requires forall o <- Headers(data, k, 0) :: WellFormed(data, k, o)
    ensures var hs := Headers(data, k, 0);
            && (|hs| != 1 ==> Patch(data, k) == Some(data))
            && (|hs| == 1 ==>
                  && WellFormed(data, k, hs[0]) && InReach(data, k, hs[0])
                  && Patch(data, k) == Some(Put(data, hs[0] + ChecksumAt(k), Calculated(data, k, hs[0]))))
  {
    hide Headers, WellFormed, Calculated, Put;
    var hs := Headers(data, k, 0);
    if |hs| == 1 {
      assert hs[0] in hs;
      FormedInReach(data, k, hs[0]);
    }
  }

  lemma PutIsUpdate(data: Image, i: nat, b: Byte)
    requires i < LEN_BIOS_DATA
    ensures Put(data, i, b) == data[i := b]
  {
  }

  // ---------------------------------------------------------------- extents

  /** The bytes a header is made of: those its length covers, and those the program reads of it in any case. */
  function Extent(data: Image, k: Kind, o: nat): nat
    requires o + MinHeader(k) <= MAX_OFFSET
  {
    var fields := if k == Pcmp then 43 else MinHeader(k);
    if Length(data, k, o) > fields then Length(data, k, o) else fields
  }

  predicate Apart(data: Image, k: Kind, o: nat, k': Kind, o': nat)
    requires o + MinHeader(k) <= MAX_OFFSET && o' + MinHeader(k') <= MAX_OFFSET
  {
    o + Extent(data, k, o) <= o' || o' + Extent(data, k', o') <= o
  }

  /** Every header is in bounds, no two overlap, and a length covers the checksum byte. */
  ghost predicate WellLaid(data: Image) {
    && (forall k: Kind, o: nat :: Header(data, k, o) ==> WellFormed(data, k, o) && ChecksumAt(k) < Length(data, k, o))
    && (forall k: Kind, o: nat, k': Kind, o': nat ::
          Header(data, k, o) && Header(data, k', o') && (k != k' || o != o') ==> Apart(data, k, o, k', o'))
  }

  /** The header's bytes agree, its checksum byte apart. */
  predicate SameBut(a: Image, b: Image, o: nat, n: nat, skip: nat)
    requires o + n <= LEN_BIOS_DATA
  {
    forall x: nat :: o <= x < o + n && x != o + skip ==> a[x] == b[x]
  }

  lemma ExtentInside(data: Image, k: Kind, o: nat)
    requires WellFormed(data, k, o) && Paragraph(o)
    ensures o + Extent(data, k, o) <= MAX_OFFSET && ChecksumAt(k) < MinHeader(k) <= Extent(data, k, o)
  {
  }

  /** The fields are not the checksum byte, so the header reads the same. */
  lemma SameHeader(a: Image, b: Image, k: Kind, o: nat)
    requires WellFormed(a, k, o) && Paragraph(o) && o + Extent(a, k, o) <= MAX_OFFSET
    requires SameBut(a, b, o, Extent(a, k, o), ChecksumAt(k))
    ensures Length(b, k, o) == Length(a, k, o) && WellFormed(b, k, o) && Extent(b, k, o) == Extent(a, k, o)
    ensures Calculated(b, k, o) == Calculated(a, k, o)
  {
    assert k == Pcmp ==> a[o + 40] == b[o + 40] && a[o + 41] == b[o + 41] && a[o + 42] == b[o + 42];
    SumButSame(a, b, o, Length(a, k, o), ChecksumAt(k));
    hide SumBut;
  }

  // ---------------------------------------------------------------- the image between two patches

  /** The only header of its kind. */
  predicate Single(data: Image, k: Kind, o: nat) {
    Headers(data, k, 0) == [o]
  }

  ghost predicate HeaderKept(a: Image, b: Image, k: Kind, o: nat, patched: bool) {
    && WellFormed(a, k, o) && o + Extent(a, k, o) <= MAX_OFFSET && ChecksumAt(k) < Extent(a, k, o)
    && SameBut(a, b, o, Extent(a, k, o), ChecksumAt(k))
    && (patched && Single(a, k, o) ==> b[o + ChecksumAt(k)] == Calculated(a, k, o))
  }

  /** From a to b no header has changed but for its checksum byte; the kinds in `done` have theirs right. */
  ghost predicate Stage(a: Image, b: Image, done: set<Kind>)
    requires WellLaid(a)
  {
    && SameSignatures(a, b)
    && (forall k: Kind, o: nat :: Header(a, k, o) ==> HeaderKept(a, b, k, o, k in done))
  }

  /** A byte written outside a header leaves the header. */
  lemma PutOutside(a: Image, b: Image, k: Kind, o: nat, i: nat, v: Byte, patched: bool)
    requires HeaderKept(a, b, k, o, patched) && i < LEN_BIOS_DATA
    requires i < o || o + Extent(a, k, o) <= i
    ensures HeaderKept(a, Put(b, i, v), k, o, patched)
  {
    hide Calculated, Extent, Single;
  }

  lemma PutChecksum(a: Image, b: Image, k: Kind, o: nat)
    requires HeaderKept(a, b, k, o, false)
    ensures o + ChecksumAt(k) < LEN_BIOS_DATA
    ensures HeaderKept(a, Put(b, o + ChecksumAt(k), Calculated(a, k, o)), k, o, true)
  {
    hide Calculated, Extent, Single;
  }

  lemma StageHeader(a: Image, b: Image, done: set<Kind>, k: Kind, o: nat)
    requires WellLaid(a) && Stage(a, b, done) && Header(a, k, o)
    ensures WellFormed(a, k, o) && WellFormed(b, k, o) && Calculated(b, k, o) == Calculated(a, k, o)
    ensures Length(b, k, o) == Length(a, k, o) && HeaderKept(a, b, k, o, k in done)
    ensures o + Extent(a, k, o) <= MAX_OFFSET && ChecksumAt(k) < Extent(a, k, o)
  {
    hide Header, Calculated;
    assert HeaderKept(a, b, k, o, k in done);
    HeaderParagraph(a, k, o);
    SameHeader(a, b, k, o);
  }

  lemma HeaderParagraph(a: Image, k: Kind, o: nat)
    requires Header(a, k, o)
    ensures Paragraph(o)
  {
  }

  lemma ApartFrom(a: Image, k: Kind, o: nat, k': Kind, o': nat)
    requires WellLaid(a) && Header(a, k, o) && Header(a, k', o') && (k != k' || o != o')
    ensures var i := o + ChecksumAt(k);
            o' + MinHeader(k') <= MAX_OFFSET && (i < o' || o' + Extent(a, k', o') <= i)
  {
    assert Apart(a, k, o, k', o');
    HeaderParagraph(a, k, o);
    ExtentInside(a, k, o);
    hide Extent, Header;
  }

  lemma SameSignaturesMore(a: Image, b: Image, c: Image)
    requires SameSignatures(a, b) && SameSignatures(b, c)
    ensures SameSignatures(a, c)
  {
    hide SignatureAt, Paragraph;
  }

  lemma StagePut(a: Image, b: Image, done: set<Kind>, k: Kind, o: nat)
    requires WellLaid(a) && Stage(a, b, done) && Header(a, k, o) && Single(a, k, o)
    ensures WellFormed(a, k, o) && o + ChecksumAt(k) < LEN_BIOS_DATA
    ensures Stage(a, Put(b, o + ChecksumAt(k), Calculated(a, k, o)), done + {k})
  {
    hide Header, Calculated, WellFormed, HeaderKept, Extent, SameSignatures, Apart, Headers;
    StageHeader(a, b, done, k, o);
    HeaderParagraph(a, k, o);
    var i, v := o + ChecksumAt(k), Calculated(a, k, o);
    ChecksumApart(k, o);
    PutKeepsSignatures(b, i, v);
    SameSignaturesMore(a, b, Put(b, i, v));
    Weaker(a, b, k, o, k in done);
    PutChecksum(a, b, k, o);
    forall k': Kind, o': nat | Header(a, k', o')
      ensures HeaderKept(a, Put(b, i, v), k', o', k' in done + {k})
    {
      if k' != k || o' != o {
        ApartFrom(a, k, o, k', o');
        StageHeader(a, b, done, k', o');
        HeaderParagraph(a, k', o');
        PutOutside(a, b, k', o', i, v, k' in done);
        if k' == k {
          assert [o][0] == o && [o'][0] == o';
          NotSingle(a, Put(b, i, v), k, o', k' in done);
        }
      }
    }
  }

  lemma Weaker(a: Image, b: Image, k: Kind, o: nat, patched: bool)
    requires HeaderKept(a, b, k, o, patched)
    ensures HeaderKept(a, b, k, o, false)
  {
  }

  /** The checksum byte of a header that is not the only one of its kind is never set. */
  lemma NotSingle(a: Image, b: Image, k: Kind, o: nat, patched: bool)
    requires !Single(a, k, o) && HeaderKept(a, b, k, o, patched)
    ensures HeaderKept(a, b, k, o, true)
  {
    hide Single, Calculated, Extent, WellFormed;
  }

  lemma {:induction false} NothingToPut(a: Image, b: Image, done: set<Kind>, k: Kind)
    requires WellLaid(a) && Stage(a, b, done) && |Headers(a, k, 0)| != 1
    ensures Stage(a, b, done + {k})
  {
    hide Header, Calculated, WellFormed, Extent, SameSignatures, Apart, Headers;
    forall k': Kind, o': nat | Header(a, k', o')
      ensures HeaderKept(a, b, k', o', k' in done + {k})
    {
      StageHeader(a, b, done, k', o');
      HeaderParagraph(a, k', o');
      if k' == k {
        assert !Single(a, k, o');
        NotSingle(a, b, k, o', k' in done);
      }
    }
  }

  /** One kind patched: it is never an exit, and the kind joins those that are right. */
  lemma PatchStage(a: Image, b: Image, done: set<Kind>, k: Kind)
    requires WellLaid(a) && Stage(a, b, done)
    ensures Patch(b, k) != None && Stage(a, Patch(b, k).value, done + {k})
  {
    hide Header, Calculated, WellFormed, WellLaid, Stage, HeaderKept, SameSignatures, Put, Headers, Extent, Length;
    var hs := Headers(b, k, 0);
    StageSignatures(a, b, done);
    SameHeaders(a, b, k, 0);
    forall o | o in hs
      ensures Header(a, k, o) && WellFormed(b, k, o)
    {
      HeaderFound(a, k, o);
      StageHeader(a, b, done, k, o);
    }
    if |hs| == 1 {
      var o := hs[0];
      assert hs == [o];
      StageHeader(a, b, done, k, o);
      StagePut(a, b, done, k, o);
    } else {
      NothingToPut(a, b, done, k);
    }
  }

  lemma StartStage(a: Image)
    requires WellLaid(a)
    ensures Stage(a, a, {})
  {
    hide Calculated, Headers, Length;
    forall k: Kind, o: nat | Header(a, k, o)
      ensures HeaderKept(a, a, k, o, false)
    {
      ExtentInside(a, k, o);
    }
  }

  lemma StageSignatures(a: Image, b: Image, done: set<Kind>)
    requires WellLaid(a) && Stage(a, b, done)
    ensures SameSignatures(a, b)
  {
  }

  lemma {:induction false} PatchAllStage(a: Image, b: Image, done: set<Kind>, kinds: seq<Kind>)
    requires WellLaid(a) && Stage(a, b, done)
    ensures PatchAll(b, kinds) != None && Stage(a, PatchAll(b, kinds).value, done + set k | k in kinds)
    decreases |kinds|
  {
    hide Patch, WellLaid, Stage;
    if kinds == [] {
      assert done + (set k | k in kinds) == done;
    } else {
      PatchStage(a, b, done, kinds[0]);
      PatchAllStage(a, Patch(b, kinds[0]).value, done + {kinds[0]}, kinds[1..]);
      assert kinds == [kinds[0]] + kinds[1..];
      assert done + {kinds[0]} + (set k | k in kinds[1..]) == done + set k | k in kinds;
    }
  }

  lemma AllKinds()
    ensures forall k: Kind :: k in KINDS
  {
    forall k: Kind
      ensures k in KINDS
    {
      match k
      case Pci => assert KINDS[0] == k;
      case Mp => assert KINDS[1] == k;
      case Pcmp => assert KINDS[2] == k;
      case Pir => assert KINDS[3] == k;
      case Pnp => assert KINDS[4] == k;
    }
  }

  ghost function AnyKind(): (s: set<Kind>)
    ensures forall k: Kind :: k in s
  {
    AllKinds();
    set k | k in KINDS
  }

  lemma SealStage(a: Image, b: Image)
    requires WellLaid(a) && Stage(a, b, AnyKind())
    ensures Stage(a, Seal(b), AnyKind())
  {
    hide Header, Calculated, WellFormed, HeaderKept, Extent, SameSignatures, Sum;
    var v := Negate(Sum(b, 0, MAX_OFFSET));
    PutKeepsSignatures(b, BIOS_OFFSET, v);
    SameSignaturesMore(a, b, Put(b, BIOS_OFFSET, v));
    forall k: Kind, o: nat | Header(a, k, o)
      ensures HeaderKept(a, Put(b, BIOS_OFFSET, v), k, o, true)
    {
      StageHeader(a, b, AnyKind(), k, o);
      HeaderParagraph(a, k, o);
      PutOutside(a, b, k, o, BIOS_OFFSET, v, true);
    }
  }

  // ---------------------------------------------------------------- the seal

  lemma {:induction false} SumSame(a: seq<Byte>, b: seq<Byte>, n: nat)
    requires n <= |a| == |b| && forall x: nat :: x < n ==> a[x] == b[x]
    ensures Sum(a, 0, n) == Sum(b, 0, n)
    decreases n
  {
    if n > 0 { SumSame(a, b, n - 1); }
  }

  /** The sealed image sums to zero, and sealing it again changes nothing. */
  lemma Sealed(b: Image)
    ensures Sum(Seal(b), 0, LEN_BIOS_DATA) % 256 == 0 && Seal(Seal(b)) == Seal(b)
  {
    hide Sum, Negate;
    var c := Seal(b);
    SumSame(b, c, MAX_OFFSET);
    SumLast(c);
    NegateSums(Sum(b, 0, MAX_OFFSET));
  }

  lemma {:induction false} SumLast(c: Image)
    ensures Sum(c, 0, LEN_BIOS_DATA) == Sum(c, 0, MAX_OFFSET) + c[BIOS_OFFSET]
  {
  }

  // ---------------------------------------------------------------- any image

  lemma PatchSignatures(a: Image, k: Kind)
    requires Patch(a, k) != None
    ensures SameSignatures(a, Patch(a, k).value)
  {
    assert SameSignatures(a, a);
    hide Calculated, Put, Headers, SameSignatures, SignatureAt, Length;
    var hs := Headers(a, k, 0);
    if |hs| == 1 {
      assert hs[0] in hs;
      HeadersExact(a, k, 0, hs[0]);
      assert WellFormed(a, k, hs[0]);
      ChecksumApart(k, hs[0]);
      PutKeepsSignatures(a, hs[0] + ChecksumAt(k), Calculated(a, k, hs[0]));
    }
  }

  lemma {:induction false} PatchAllSignatures(a: Image, kinds: seq<Kind>)
    requires PatchAll(a, kinds) != None
    ensures SameSignatures(a, PatchAll(a, kinds).value)
    decreases |kinds|
  {
    hide Patch, SignatureAt;
    if kinds != [] {
      PatchSignatures(a, kinds[0]);
      PatchAllSignatures(Patch(a, kinds[0]).value, kinds[1..]);
    }
  }

  /** Whatever the image, if it is written back: its bytes sum to zero, and it has the signatures it had. */
  lemma PatchedSums(a: Image)
    requires Patched(a) != None
    ensures Sum(Patched(a).value, 0, LEN_BIOS_DATA) % 256 == 0
    ensures SameSignatures(a, Patched(a).value)
  {
    hide PatchAll, Sum, SameSignatures, Seal;
    var b := PatchAll(a, KINDS).value;
    PatchAllSignatures(a, KINDS);
    Sealed(b);
    SealSignatures(b);
    SameSignaturesMore(a, b, Seal(b));
  }

  lemma SealSignatures(b: Image)
    ensures SameSignatures(b, Seal(b))
  {
    hide Sum, SameSignatures, Negate;
    PutKeepsSignatures(b, BIOS_OFFSET, Negate(Sum(b, 0, MAX_OFFSET)));
  }

  // ---------------------------------------------------------------- the theorem

  lemma {:induction false} HeaderSums(a: Image, c: Image, k: Kind, o: nat)
    requires WellLaid(a) && Stage(a, c, AnyKind()) && Header(a, k, o) && Single(a, k, o)
    ensures WellFormed(c, k, o) && Sum(c, o, Length(c, k, o)) % 256 == 0
  {
    hide Header, Sum, Extent, Calculated, Length, Apart, Headers, SameSignatures;
    StageHeader(a, c, AnyKind(), k, o);
    assert ChecksumAt(k) < Length(a, k, o);
    OneHeaderSums(c, k, o);
  }

  /** With the calculated value in its place a header sums to zero. */
  lemma {:induction false} OneHeaderSums(c: Image, k: Kind, o: nat)
    requires WellFormed(c, k, o) && ChecksumAt(k) < Length(c, k, o)
    requires c[o + ChecksumAt(k)] == Calculated(c, k, o)
    ensures Sum(c, o, Length(c, k, o)) % 256 == 0
  {
    hide SumBut, Sum, Negate, Length;
    SumSplit(c, o, Length(c, k, o), ChecksumAt(k));
    NegateSums(SumBut(c, o, Length(c, k, o), ChecksumAt(k)));
  }

  lemma NothingToPatch(a: Image, c: Image, k: Kind)
    requires WellLaid(a) && Stage(a, c, AnyKind())
    ensures Patch(c, k) == Some(c)
  {
    hide Header, Calculated, WellFormed, WellLaid, SameSignatures, Stage, Patch, Put, Headers, Extent, Length, Apart;
    StageSignatures(a, c, AnyKind());
    SameHeaders(a, c, k, 0);
    var hs := Headers(c, k, 0);
    forall o | o in hs
      ensures Header(a, k, o) && WellFormed(c, k, o)
    {
      HeaderFound(a, k, o);
      StageHeader(a, c, AnyKind(), k, o);
    }
    PatchGoesOn(c, k);
    if |hs| == 1 {
      var o := hs[0];
      assert hs == [o];
      StageHeader(a, c, AnyKind(), k, o);
      PutIsUpdate(c, o + ChecksumAt(k), Calculated(c, k, o));
      assert c[o + ChecksumAt(k) := Calculated(c, k, o)] == c;
    }
  }

  lemma {:induction false} NothingLeftToPatch(a: Image, c: Image, kinds: seq<Kind>)
    requires WellLaid(a) && Stage(a, c, AnyKind())
    ensures PatchAll(c, kinds) == Some(c)
    decreases |kinds|
  {
    hide Patch, WellLaid, Stage;
    if kinds != [] {
      NothingToPatch(a, c, kinds[0]);
      NothingLeftToPatch(a, c, kinds[1..]);
    }
  }

  /**
    An image whose headers are in bounds and do not overlap, with lengths that cover the checksum bytes: it is
    written back; every signature found exactly once has a header that sums to zero; no header reaches the last byte;
    and a second run changes nothing.
  */
  lemma PatchedRight(a: Image)
    requires WellLaid(a)
    ensures Patched(a) != None
    ensures forall k: Kind, o: nat :: Header(a, k, o) && Single(a, k, o)
              ==> var c := Patched(a).value; WellFormed(c, k, o) && Sum(c, o, Length(c, k, o)) % 256 == 0
    ensures forall k: Kind, o: nat :: Header(a, k, o)
              ==> WellFormed(Patched(a).value, k, o) && o + Length(Patched(a).value, k, o) <= BIOS_OFFSET
    ensures Patched(Patched(a).value) == Patched(a)
  {
    hide Header, Single, Stage, WellLaid, Seal, PatchAll, Sum;
    StartStage(a);
    PatchAllStage(a, a, {}, KINDS);
    var b := PatchAll(a, KINDS).value;
    assert {} + (set k | k in KINDS) == AnyKind() by { AllKinds(); }
    SealStage(a, b);
    var c := Seal(b);
    forall k: Kind, o: nat | Header(a, k, o)
      ensures WellFormed(c, k, o) && o + Length(c, k, o) <= BIOS_OFFSET
      ensures Single(a, k, o) ==> Sum(c, o, Length(c, k, o)) % 256 == 0
    {
      StageHeader(a, c, AnyKind(), k, o);
      if Single(a, k, o) { HeaderSums(a, c, k, o); }
    }
    NothingLeftToPatch(a, c, KINDS);
    Sealed(b);
  }

  /** A kind is found exactly once when one paragraph boundary past the first has its signature. */
  lemma SingleIs(data: Image, k: Kind, o: nat)
    ensures Single(data, k, o) <==> Header(data, k, o) && forall x: nat :: Header(data, k, x) ==> x == o
  {
    hide Scan, SignatureAt;
    forall x: nat
      ensures x in Headers(data, k, 0) <==> Header(data, k, x)
    {
      HeaderFound(data, k, x);
    }
    var hs := Headers(data, k, 0);
    if Header(data, k, o) && forall x: nat :: Header(data, k, x) ==> x == o {
      assert hs[0] in hs;
      var rest := Headers(data, k, o);
      if rest != [] {
        assert rest[0] in rest;
        HeadersExact(data, k, o, rest[0]);
        HeadersExact(data, k, 0, rest[0]);
      }
    }
  }

  /**
    One patch by itself, on any image: afterwards the header sums to zero exactly when its length covers the
    checksum byte, or it summed to zero already.
  */
  lemma {:induction false} OnePatchExactly(a: Image, k: Kind, o: nat)
    requires Single(a, k, o) && WellFormed(a, k, o) && Paragraph(o)
    ensures Patch(a, k) != None
    ensures var b := Patch(a, k).value;
            && Length(b, k, o) == Length(a, k, o)
            && (Sum(b, o, Length(b, k, o)) % 256 == 0
                <==> ChecksumAt(k) < Length(a, k, o) || Sum(a, o, Length(a, k, o)) % 256 == 0)
  {
    hide Headers, Sum, SumBut, Extent, Negate, Length;
    PatchOne(a, k, o);
    var b := Put(a, o + ChecksumAt(k), Calculated(a, k, o));
    ExtentInside(a, k, o);
    SameHeader(a, b, k, o);
    var n := Length(a, k, o);
    if ChecksumAt(k) < n {
      OneHeaderSums(b, k, o);
    } else {
      SumSplit(a, o, n, ChecksumAt(k));
      SumSplit(b, o, n, ChecksumAt(k));
      SumButSame(a, b, o, n, ChecksumAt(k));
    }
  }

  /** An image with one $PnP header, of length 1. */
  function TinyHeader(): Image {
    seq(LEN_BIOS_DATA, i requires 0 <= i < LEN_BIOS_DATA =>
      if i == 16 then 0x24 else if i == 17 || i == 19 then 0x50 else if i == 18 then 0x6e else if i == 21 then 1 else 0)
  }

  lemma TinyHeaders(k: Kind, x: nat)
    ensures Header(TinyHeader(), k, x) <==> k == Pnp && x == 16
  {
    var a := TinyHeader();
    if Paragraph(x) && 0 < x < MAX_OFFSET {
      NextParagraph(x - 16);
      assert a[x..x + 4] == [a[x], a[x + 1], a[x + 2], a[x + 3]];
    }
  }

  lemma NoHeader(a: Image, k: Kind)
    requires forall x: nat :: !Header(a, k, x)
    ensures Patch(a, k) == Some(a)
  {
    hide Header, NextHeader, WellFormed;
    var hs := Headers(a, k, 0);
    if hs != [] {
      assert hs[0] in hs;
      HeaderFound(a, k, hs[0]);
    }
  }

  /** On that image the program gets to its end, and leaves the header with the sum 0x24. */
  lemma TinyHeaderStaysWrong()
    ensures var a := TinyHeader();
            && Single(a, Pnp, 16) && WellFormed(a, Pnp, 16) && Patched(a) != None
            && Length(Patched(a).value, Pnp, 16) == 1 && Sum(Patched(a).value, 16, 1) % 256 == 0x24
  {
    hide Patch, Headers, Calculated, Negate;
    var a := TinyHeader();
    forall k: Kind, x: nat
      ensures Header(a, k, x) <==> k == Pnp && x == 16
    {
      TinyHeaders(k, x);
    }
    SingleIs(a, Pnp, 16);
    NoHeader(a, Pci);
    NoHeader(a, Mp);
    NoHeader(a, Pcmp);
    NoHeader(a, Pir);
    PatchOne(a, Pnp, 16);
    var b := Put(a, 24, Calculated(a, Pnp, 16));
    assert PatchAll(a, KINDS) == PatchAll(a, [Mp, Pcmp, Pir, Pnp]) == PatchAll(a, [Pcmp, Pir, Pnp])
        == PatchAll(a, [Pir, Pnp]) == PatchAll(a, [Pnp]) == PatchAll(b, []) == Some(b);
    var c := Seal(b);
    assert c[16] == 0x24 && c[21] == 1;
    assert Sum(c, 16, 1) == Sum(c, 16, 0) + c[16];
  }

  lemma PatchOne(a: Image, k: Kind, o: nat)
    requires Single(a, k, o) && WellFormed(a, k, o)
    ensures Patch(a, k) == Some(Put(a, o + ChecksumAt(k), Calculated(a, k, o)))
  {
    hide Headers, Length, Calculated;
    var hs := Headers(a, k, 0);
    assert hs[0] == o;
    forall x | x in hs
      ensures WellFormed(a, k, x)
    {
      assert x == o;
    }
  }
}
