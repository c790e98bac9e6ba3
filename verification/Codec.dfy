/** Byte-level wire format of paired-device and bond records in flash. */
module Codec {
  import opened Types
  import opened Utf8
  import opened Buffers

  const ADDRESS_RECORD_SIZE: nat := 7
  const BOND_RECORD_SIZE: nat := 50
  /** Address, RSSI and name length in front of the name bytes. */
  const NAME_OFFSET: nat := 9
  const MAX_DEVICE_RECORD: nat := NAME_OFFSET + NAME_CAPACITY + 1 + BOND_RECORD_SIZE

  type Octets8 = s: seq<u8> | |s| == 8 witness seq(8, _ => 0)
  type Octets16 = s: seq<u8> | |s| == 16 witness seq(16, _ => 0)

  /** Bonding keys: master id (`ediv`, `rand`), encryption info (`ltk`, `flags`), peer identity. */
  datatype BondInfo = BondInfo(
    ediv: u16, rand: Octets8, ltk: Octets16, flags: u8, irk: Octets16, identity: Address)

  datatype PairedDevice = PairedDevice(address: Address, name: Name, lastRssi: i8, bond: Option<BondInfo>)

  /** `PairedDevice::new`: any name is cut to what fits; one that fits is kept whole. */
  function NewPairedDevice(address: Address, name: string, rssi: i8): (d: PairedDevice)
    ensures d.address == address && d.lastRssi == rssi && d.bond.None?
    ensures |Encode(name)| <= NAME_CAPACITY ==> d.name == name
  {
    assert |Encode(name)| <= NAME_CAPACITY ==> PushEach("", Take(name, NAME_CAPACITY)) == name by {
      if |Encode(name)| <= NAME_CAPACITY {
        NameRestored(name);
      }
    }
    PairedDevice(address, PushEach("", Take(name, NAME_CAPACITY)), rssi, None)
  }

  /**
   Of the first 32 characters, the name keeps exactly those that fit behind the ones kept before:
   a wide character near the end may be left out and a narrower one behind it kept. A name of
   one-byte characters is cut to its first 32.
   */
  lemma NewNameMeaning(address: Address, name: string, rssi: i8, kept: seq<bool>)
    ensures exists ks :: KeepsWhatFits(Take(name, NAME_CAPACITY), ks)
    ensures KeepsWhatFits(Take(name, NAME_CAPACITY), kept) ==>
              NewPairedDevice(address, name, rssi).name == Selected(Take(name, NAME_CAPACITY), kept)
    ensures (forall i | 0 <= i < |name| :: name[i] as int < 0x80) ==>
              NewPairedDevice(address, name, rssi).name == Take(name, NAME_CAPACITY)
  {
    var cs := Take(name, NAME_CAPACITY);
    var ks := SomeChoiceFits(cs);
    if KeepsWhatFits(cs, kept) {
      PushEachSelects(cs, kept);
    }
    if forall i | 0 <= i < |name| :: name[i] as int < 0x80 {
      PushEachAscii(cs);
    }
  }

  // ─── Addresses ─────────────────────────────────────────────────────────────

  function AddressTypeToByte(kind: AddressType): u8 {
    match kind
    case Public => 0
    case RandomStatic => 1
    case RandomPrivateResolvable => 2
    case RandomPrivateNonResolvable => 3
    case Anonymous => 4
  }

  function ByteToAddressType(value: u8): AddressType {
    match value
    case 0 => Public
    case 1 => RandomStatic
    case 2 => RandomPrivateResolvable
    case 3 => RandomPrivateNonResolvable
    case 4 => Anonymous
    case _ => RandomStatic
  }

  function EncodeAddress(a: Address): (r: seq<u8>)
    ensures |r| == ADDRESS_RECORD_SIZE
  {
    a.bytes + [AddressTypeToByte(a.kind)]
  }

  function DecodeAddress(data: seq<u8>): Address
    requires |data| >= ADDRESS_RECORD_SIZE
  {
    Address(ByteToAddressType(data[6]), data[0..6])
  }

  /**
   Addresses survive the round trip, and every seven bytes decode; re-encoding restores
   them exactly when the type byte is one of the five defined values.
   */
  lemma AddressRoundTrip(a: Address, data: seq<u8>)
    requires |data| == ADDRESS_RECORD_SIZE
    ensures DecodeAddress(EncodeAddress(a)) == a
    ensures EncodeAddress(DecodeAddress(data)) == data <==> data[6] <= 4
  {
    assert EncodeAddress(a)[0..6] == a.bytes;
    assert data == data[0..6] + [data[6]];
  }

  /** The seven bytes: six of the address, then 0 to 4 for its type; every other type byte reads as random static. */
  lemma AddressLayout(a: Address, data: seq<u8>)
    requires |data| == 7
    ensures EncodeAddress(a)[..6] == a.bytes
    ensures EncodeAddress(a)[6] == match a.kind
                                   case Public => 0
                                   case RandomStatic => 1
                                   case RandomPrivateResolvable => 2
                                   case RandomPrivateNonResolvable => 3
                                   case Anonymous => 4
    ensures DecodeAddress(data).bytes == data[..6]
    ensures data[6] > 4 ==> DecodeAddress(data).kind == RandomStatic
  {}

  // ─── Bonds ─────────────────────────────────────────────────────────────────

  function EncodeBond(b: BondInfo): (r: seq<u8>)
    ensures |r| == BOND_RECORD_SIZE
  {
    [b.ediv % 0x100, b.ediv / 0x100] + b.rand + b.ltk + [b.flags] + b.irk + EncodeAddress(b.identity)
  }

  function DecodeBond(data: seq<u8>): Option<BondInfo> {
    if |data| < BOND_RECORD_SIZE then None else
    Some(BondInfo(data[0] as int + data[1] as int * 0x100, data[2..10], data[10..26], data[26], data[27..43],
                  DecodeAddress(data[43..50])))
  }

  lemma BondSlices(ediv: seq<u8>, rand: Octets8, ltk: Octets16, flags: u8, irk: Octets16, identity: seq<u8>)
    requires |ediv| == 2 && |identity| == ADDRESS_RECORD_SIZE
    ensures var e := ediv + rand + ltk + [flags] + irk + identity;
            && e[0] == ediv[0] && e[1] == ediv[1] && e[2..10] == rand && e[10..26] == ltk
            && e[26] == flags && e[27..43] == irk && e[43..50] == identity
  {}

  lemma BondRoundTrip(b: BondInfo)
    ensures DecodeBond(EncodeBond(b)) == Some(b)
  {
    var identity := EncodeAddress(b.identity);
    BondSlices([b.ediv % 0x100, b.ediv / 0x100], b.rand, b.ltk, b.flags, b.irk, identity);
    AddressRoundTrip(b.identity, identity);
  }

  /** The fifty bytes, field by field; the diversifier comes with its low byte first. */
  lemma BondLayout(b: BondInfo)
    ensures var e := EncodeBond(b);
            && e[0] as int + 0x100 * e[1] as int == b.ediv
            && e[2..10] == b.rand && e[10..26] == b.ltk && e[26] == b.flags && e[27..43] == b.irk
            && e[43..50] == EncodeAddress(b.identity)
  {
    BondSlices([b.ediv % 0x100, b.ediv / 0x100], b.rand, b.ltk, b.flags, b.irk, EncodeAddress(b.identity));
  }

  // ─── Device records ────────────────────────────────────────────────────────

  function RssiToByte(rssi: i8): u8 {
    if rssi < 0 then rssi as int + 0x100 else rssi
  }

  function ByteToRssi(b: u8): i8 {
    if b < 0x80 then b else b as int - 0x100
  }

  function EncodeBase(d: PairedDevice): (r: seq<u8>)
    ensures |r| == NAME_OFFSET + |Encode(d.name)|
  {
    EncodeAddress(d.address) + [RssiToByte(d.lastRssi), |Encode(d.name)|] + Encode(d.name)
  }

  /** The bytes of one versioned record. */
  function EncodeDevice(d: PairedDevice): (r: seq<u8>)
    ensures 0 < |r| <= MAX_DEVICE_RECORD
  {
    EncodeBase(d) + (match d.bond
                     case Some(b) => [1] + EncodeBond(b)
                     case None => [0])
  }

  /** `slice` with `bytes` written at its start. */
  function Overwrite(slice: seq<u8>, bytes: seq<u8>): (r: seq<u8>)
    requires |bytes| <= |slice|
    ensures |r| == |slice|
  {
    bytes + slice[|bytes|..]
  }

  /**
   `PairedDevice::serialize`: what the slice holds afterwards and the byte count returned.
   A slice that is too short yields 0, possibly after the base fields were already written.
   */
  function Serialize(d: PairedDevice, slice: seq<u8>): (r: (seq<u8>, nat))
    ensures |r.0| == |slice|
  {
    if |slice| < |EncodeBase(d)| then (slice, 0)
    else if |slice| < |EncodeDevice(d)| then (Overwrite(slice, EncodeBase(d)), 0)
    else (Overwrite(slice, EncodeDevice(d)), |EncodeDevice(d)|)
  }

  /**
   A slice with room takes the record and keeps its rest; one without room for it yields 0, with
   the base fields written already if there is room for those, and otherwise untouched.
   */
  lemma SerializeMeaning(d: PairedDevice, slice: seq<u8>)
    ensures var (after, n) := Serialize(d, slice);
            && n == (if |slice| >= |EncodeDevice(d)| then |EncodeDevice(d)| else 0)
            && (n > 0 ==> after[..n] == EncodeDevice(d) && after[n..] == slice[n..])
            && (n == 0 && |slice| >= |EncodeBase(d)| ==>
                  after[..|EncodeBase(d)|] == EncodeBase(d) && after[|EncodeBase(d)|..] == slice[|EncodeBase(d)|..])
            && (|slice| < |EncodeBase(d)| ==> after == slice)
  {}

  method WriteFields(buf: array<u8>, address: seq<u8>, rssi: u8, name: seq<u8>)
    requires |address| == ADDRESS_RECORD_SIZE && |name| <= NAME_CAPACITY
    requires NAME_OFFSET + |name| <= buf.Length
    modifies buf
    ensures buf[..] == Overwrite(old(buf[..]), address + [rssi, |name|] + name)
  {
    WriteAt(buf, 0, address);
    buf[7] := rssi;
    buf[8] := |name|;
    WriteAt(buf, NAME_OFFSET, name);
  }

  /** `serialize_base`, writing the buffer in place one field after the other. */
  method SerializeBaseInto(d: PairedDevice, buf: array<u8>) returns (n: nat)
    modifies buf
    ensures n == if buf.Length < |EncodeBase(d)| then 0 else |EncodeBase(d)|
    ensures buf[..] == if n == 0 then old(buf[..]) else Overwrite(old(buf[..]), EncodeBase(d))
  {
    var name := Encode(d.name);
    var total := ADDRESS_RECORD_SIZE + 1 + 1 + |name|;
    if buf.Length < total {
      return 0;
    }
    WriteFields(buf, EncodeAddress(d.address), RssiToByte(d.lastRssi), name);
    return total;
  }

  lemma OverwriteTwice(before: seq<u8>, base: seq<u8>, tail: seq<u8>)
    requires |base + tail| <= |before|
    ensures Patch(Overwrite(before, base), |base|, tail) == Overwrite(before, base + tail)
  {}

  method WriteBond(buf: array<u8>, at: nat, bond: seq<u8>)
    requires at + 1 + |bond| <= buf.Length
    modifies buf
    ensures buf[..] == Patch(old(buf[..]), at, [1] + bond)
  {
    buf[at] := 1;
    WriteAt(buf, at + 1, bond);
  }

  /** `serialize` on the buffer itself. */
  method SerializeInto(d: PairedDevice, buf: array<u8>) returns (n: nat)
    modifies buf
    ensures (buf[..], n) == Serialize(d, old(buf[..]))
  {
    ghost var before, base := buf[..], EncodeBase(d);
    var total := SerializeBaseInto(d, buf);
    if total == 0 || buf.Length < total + 1 {
      return 0;
    }
    match d.bond {
      case Some(b) =>
        if buf.Length < total + 1 + BOND_RECORD_SIZE {
          return 0;
        }
        var bond := EncodeBond(b);
        WriteBond(buf, total, bond);
        OverwriteTwice(before, base, [1] + bond);
        return total + 1 + BOND_RECORD_SIZE;
      case None =>
        buf[total] := 0;
        assert buf[..] == Patch(Overwrite(before, base), total, [0]);
        OverwriteTwice(before, base, [0]);
        return total + 1;
    }
  }

  /** `deserialize_base`: the device without its bond, and the bytes it took. */
  function DecodeBase(data: seq<u8>): (r: Option<(PairedDevice, nat)>)
    ensures r.Some? ==> NAME_OFFSET <= r.value.1 <= |data| && r.value.1 == NAME_OFFSET + data[8] as nat
  {
    if |data| < NAME_OFFSET then None else
    var nameLength := data[8];
    if |data| < NAME_OFFSET + nameLength then None else
    var name := match Decode(data[NAME_OFFSET..NAME_OFFSET + nameLength])
                case Some(s) => PushEach("", Take(s, NAME_CAPACITY))
                case None => "";
    Some((PairedDevice(DecodeAddress(data[..ADDRESS_RECORD_SIZE]), name, ByteToRssi(data[7]), None),
          NAME_OFFSET + nameLength))
  }

  /** `deserialize`: a versioned record. */
  function DecodeDevice(data: seq<u8>): Option<PairedDevice> {
    match DecodeBase(data)
    case None => None
    case Some((device, offset)) =>
      if offset >= |data| || data[offset] == 0 then Some(device)
      else if |data| < offset + 1 + BOND_RECORD_SIZE then None
      else Some(device.(bond := DecodeBond(data[offset + 1..offset + 1 + BOND_RECORD_SIZE])))
  }

  /** The record, field by field: address, signal in two's complement, name with its length, bond behind a flag. */
  lemma DeviceLayout(d: PairedDevice)
    ensures var e, n := EncodeDevice(d), |Encode(d.name)|;
            && |e| == 10 + n + (if d.bond.Some? then 50 else 0)
            && e[..7] == EncodeAddress(d.address)
            && e[7] as int == (if d.lastRssi < 0 then 256 + d.lastRssi as int else d.lastRssi as int)
            && e[8] == n && e[9..9 + n] == Encode(d.name)
            && (if d.bond.Some? then e[9 + n] == 1 && e[10 + n..] == EncodeBond(d.bond.value) else e[9 + n] == 0)
  {
    var tail := match d.bond
                case Some(b) => [1] + EncodeBond(b)
                case None => [0];
    BaseSlices(EncodeAddress(d.address), RssiToByte(d.lastRssi), Encode(d.name), tail);
    assert EncodeDevice(d) == EncodeBase(d) + tail;
  }

  /**
   Any bytes: base fields are read exactly if they are all there. A name that is not well formed
   reads as empty, one of more than 32 bytes keeps what fits.
   */
  lemma DecodeBaseMeaning(data: seq<u8>)
    ensures DecodeBase(data).Some? <==> |data| >= 9 && |data| >= 9 + data[8] as nat
    ensures DecodeBase(data).Some? ==>
              var (d, n) := DecodeBase(data).value;
              var name := Decode(data[9..9 + data[8] as nat]);
              && n == 9 + data[8] as nat && d.bond.None?
              && d.address == DecodeAddress(data[..7])
              && d.lastRssi as int == (if data[7] < 128 then data[7] as int else data[7] as int - 256)
              && (name.None? ==> d.name == "")
              && (name.Some? ==>
                    forall kept | KeepsWhatFits(Take(name.value, 32), kept) :: d.name == Selected(Take(name.value, 32), kept))
  {
    if |data| >= 9 && |data| >= 9 + data[8] as nat {
      var name := Decode(data[9..9 + data[8] as nat]);
      if name.Some? {
        forall kept | KeepsWhatFits(Take(name.value, 32), kept) {
          PushEachSelects(Take(name.value, 32), kept);
        }
      }
    }
  }

  /**
   Any bytes: a record without flag byte, or with flag 0, has no bond; with any other flag it
   has the bond that follows, and is no record at all if fewer than fifty bytes follow.
   */
  lemma DecodeDeviceMeaning(data: seq<u8>)
    requires DecodeBase(data).Some?
    ensures var (d, n) := DecodeBase(data).value;
            DecodeDevice(data)
            == if n == |data| || data[n] == 0 then Some(d)
               else if |data| < n + 51 then None
               else Some(d.(bond := DecodeBond(data[n + 1..n + 51])))
    ensures |data| >= 50 ==> DecodeBond(data).Some?
  {}

  lemma NameRestored(name: Name)
    ensures Decode(Encode(name)) == Some(name)
    ensures PushEach("", Take(name, NAME_CAPACITY)) == name
  {
    DecodeInverse(name);
    EncodedLength(name);
    PushEachRestores("", name);
    assert "" + name == name;
  }

  lemma BaseSlices(address: seq<u8>, rssi: u8, name: seq<u8>, rest: seq<u8>)
    requires |address| == ADDRESS_RECORD_SIZE && |name| <= NAME_CAPACITY
    ensures var data := address + [rssi, |name|] + name + rest;
            && data[..ADDRESS_RECORD_SIZE] == address && data[7] == rssi && data[8] == |name|
            && data[NAME_OFFSET..NAME_OFFSET + |name|] == name
  {}

  lemma DecodeBaseInverse(d: PairedDevice, rest: seq<u8>)
    ensures DecodeBase(EncodeBase(d) + rest) == Some((d.(bond := None), |EncodeBase(d)|))
  {
    var address, name := EncodeAddress(d.address), Encode(d.name);
    var data := EncodeBase(d) + rest;
    BaseSlices(address, RssiToByte(d.lastRssi), name, rest);
    assert data[..ADDRESS_RECORD_SIZE] == address && data[8] == |name|;
    assert data[NAME_OFFSET..NAME_OFFSET + |name|] == name;
    AddressRoundTrip(d.address, address);
    NameRestored(d.name);
  }

  lemma NameBytes(data: seq<u8>, n: nat)
    requires NAME_OFFSET <= n <= |data|
    ensures data[..ADDRESS_RECORD_SIZE] + [data[7], data[8]] + data[NAME_OFFSET..n] == data[..n]
  {}

  /** Decoding drops nothing of well-formed base bytes: writing the decoded device restores them. */
  lemma BaseReencodes(data: seq<u8>)
    requires DecodeBase(data).Some? && data[6] <= 4 && data[8] <= NAME_CAPACITY
    requires Decode(data[NAME_OFFSET..NAME_OFFSET + data[8] as nat]).Some?
    ensures var (d, n) := DecodeBase(data).value; EncodeBase(d) == data[..n]
  {
    var (d, n) := DecodeBase(data).value;
    var name := Decode(data[NAME_OFFSET..n]).value;
    NameRestored(name);
    var address := data[..ADDRESS_RECORD_SIZE];
    AddressRoundTrip(d.address, address);
    assert EncodeAddress(d.address) == address && d.name == name;
    assert RssiToByte(d.lastRssi) == data[7];
    NameBytes(data, n);
  }

  /** A flag byte and a bond behind the base bytes are found there. */
  lemma BondSlice(base: seq<u8>, bond: seq<u8>)
    requires |bond| == BOND_RECORD_SIZE
    ensures var data, at := base + ([1] + bond), |base|;
            && |data| == at + 1 + BOND_RECORD_SIZE && data[at] == 1
            && data[at + 1..at + 1 + BOND_RECORD_SIZE] == bond
  {}

  /** Decoding a record gives back the device it was written from: bond, name and RSSI included. */
  lemma DeviceRoundTrip(d: PairedDevice)
    ensures DecodeDevice(EncodeDevice(d)) == Some(d)
  {
    var base := EncodeBase(d);
    match d.bond {
      case Some(b) =>
        var bond := EncodeBond(b);
        assert EncodeDevice(d) == base + ([1] + bond);
        DecodeBaseInverse(d, [1] + bond);
        BondSlice(base, bond);
        BondRoundTrip(b);
      case None =>
        assert EncodeDevice(d) == base + [0];
        DecodeBaseInverse(d, [0]);
        assert (base + [0])[|base|] == 0;
    }
  }
}
