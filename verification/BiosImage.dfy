/**
  biossums: the 64 KiB image, the five kinds of table looked for in it, and what the program makes of it.
*/
module BiosImage {
  import opened Common

  type Byte = x: nat | x < 256

  const LEN_BIOS_DATA: nat := 0x1_0000
  const MAX_OFFSET: nat := 0xffff
  const BIOS_OFFSET: nat := 0xffff

  type Image = data: seq<Byte> | |data| == LEN_BIOS_DATA witness seq(LEN_BIOS_DATA, _ => 0)

  datatype Kind = Pci | Mp | Pcmp | Pir | Pnp

  function Signature(k: Kind): (r: seq<Byte>)
    ensures |r| == 4
  {
    match k
    case Pci => [0x5f, 0x33, 0x32, 0x5f]
    case Mp => [0x5f, 0x4d, 0x50, 0x5f]
    case Pcmp => [0x50, 0x43, 0x4d, 0x50]
    case Pir => [0x24, 0x50, 0x49, 0x52]
    case Pnp => [0x24, 0x50, 0x6e, 0x50]
  }

  /** Where in the header the checksum byte is. */
  function ChecksumAt(k: Kind): nat {
    match k
    case Pci => 10
    case Mp => 10
    case Pcmp => 7
    case Pir => 31
    case Pnp => 8
  }

  function MinHeader(k: Kind): nat {
    match k
    case Pci => 16
    case Mp => 16
    case Pcmp => 42
    case Pir => 32
    case Pnp => 32
  }

  predicate SignatureAt(data: Image, k: Kind, o: nat) {
    o + 4 <= LEN_BIOS_DATA && data[o..o + 4] == Signature(k)
  }

  // ---------------------------------------------------------------- scanning

  /** The search after the rounding: the next paragraph boundary past o with the signature. */
  function Scan(data: Image, k: Kind, o: nat): Option<nat>
    decreases MAX_OFFSET - o
  {
    if o + 16 >= MAX_OFFSET then None
    else if SignatureAt(data, k, o + 16) then Some(o + 16)
    else Scan(data, k, o + 16)
  }

  /** get_offset */
  function NextHeader(data: Image, k: Kind, o: nat): Option<nat> {
    Scan(data, k, (o + 15) / 16 * 16)
  }

  lemma {:induction false} ScanRange(data: Image, k: Kind, o: nat)
    ensures var r := Scan(data, k, o);
            r != None ==> o + 16 <= r.value < MAX_OFFSET && (r.value - o) % 16 == 0 && SignatureAt(data, k, r.value)
    decreases MAX_OFFSET - o
  {
    if o + 16 < MAX_OFFSET && !SignatureAt(data, k, o + 16) { ScanRange(data, k, o + 16); }
  }

  /** All the headers of a kind that the main loop comes to after o. */
  function Headers(data: Image, k: Kind, o: nat): seq<nat>
    decreases MAX_OFFSET - o
  {
    var r := NextHeader(data, k, o);
    ScanRange(data, k, (o + 15) / 16 * 16);
    if r == None then [] else [r.value] + Headers(data, k, r.value)
  }

  // ---------------------------------------------------------------- sums

  function Sum(data: seq<Byte>, o: nat, n: nat): nat
    requires o + n <= |data|
    decreases n
  {
    if n == 0 then 0 else Sum(data, o, n - 1) + data[o + n - 1]
  }

  /** The sum without the byte at index `skip`. */
  function SumBut(data: seq<Byte>, o: nat, n: nat, skip: nat): nat
    requires o + n <= |data|
    decreases n
  {
    if n == 0 then 0 else SumBut(data, o, n - 1, skip) + if n - 1 == skip then 0 else data[o + n - 1]
  }

  /** -sum in a byte. */
  function Negate(sum: nat): Byte {
    (256 - sum % 256) % 256
  }

  // ---------------------------------------------------------------- one header

  function At(data: Image, i: nat): nat
    requires i < LEN_BIOS_DATA
  {
    data[i]
  }

  function Length(data: Image, k: Kind, o: nat): nat
    requires o + MinHeader(k) <= MAX_OFFSET
  {
    match k
    case Pci => At(data, o + 9) * 16
    case Mp => At(data, o + 8) * 16
    case Pcmp => At(data, o + 4) + At(data, o + 5) * 256
    case Pir => At(data, o + 6) + At(data, o + 7) * 256
    case Pnp => At(data, o + 5)
  }

  /** The checks of calc_value: without them the program exits. */
  predicate WellFormed(data: Image, k: Kind, o: nat) {
    && o + MinHeader(k) <= MAX_OFFSET
    && o + Length(data, k, o) <= MAX_OFFSET
    && (k == Pcmp ==> data[o + 40] == 0 && data[o + 41] == 0 && data[o + 42] == 0)
  }

  /** calc_value */
  function Calculated(data: Image, k: Kind, o: nat): Byte
    requires WellFormed(data, k, o)
  {
    Negate(SumBut(data, o, Length(data, k, o), ChecksumAt(k)))
  }

  // ---------------------------------------------------------------- main

  function Put(data: Image, i: nat, b: Byte): Image
    requires i < LEN_BIOS_DATA
  {
    data[i := b]
  }

  /** One of the five loops and the patch after it; nothing if the program exits. */
  function Patch(data: Image, k: Kind): Option<Image> {
    var hs := Headers(data, k, 0);
    if exists o <- hs :: !WellFormed(data, k, o) then None
    else if |hs| != 1 then Some(data)
    else Some(Put(data, hs[0] + ChecksumAt(k), Calculated(data, k, hs[0])))
  }

  function PatchAll(data: Image, kinds: seq<Kind>): Option<Image>
    decreases |kinds|
  {
    if kinds == [] then Some(data)
    else
      var r := Patch(data, kinds[0]);
      if r == None then None else PatchAll(r.value, kinds[1..])
  }

  const KINDS: seq<Kind> := [Pci, Mp, Pcmp, Pir, Pnp]

  /** The last byte, over all the others. */
  function Seal(data: Image): Image {
    Put(data, BIOS_OFFSET, Negate(Sum(data, 0, MAX_OFFSET)))
  }

  /** What is written back, if the program gets there. */
  function Patched(data: Image): Option<Image> {
    var r := PatchAll(data, KINDS);
    if r == None then None else Some(Seal(r.value))
  }
}
