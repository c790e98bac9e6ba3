/** The pairing store: a bounded cache of paired devices over one flash item. */
module Store {
  import opened Types
  import opened Utf8
  import opened Codec
  import opened Framing
  import opened Chains

  const MAX_PAIRED_DEVICES: nat := 4
  const MAX_RECORD_SIZE: nat := 512
  const FLASH_WRITE_ATTEMPTS: nat := 3

  // ─── What a blob means ─────────────────────────────────────────────────────

  function EncodeAll(ds: seq<PairedDevice>): (rs: seq<seq<u8>>)
    ensures |rs| == |ds|
    ensures forall i | 0 <= i < |ds| :: rs[i] == EncodeDevice(ds[i])
  {
    if ds == [] then [] else [EncodeDevice(ds[0])] + EncodeAll(ds[1..])
  }

  /** The records that `decode` understands, in order. */
  function DecodeEach(rs: seq<seq<u8>>, decode: seq<u8> -> Option<PairedDevice>): seq<PairedDevice> {
    if rs == [] then []
    else (match decode(rs[0])
          case Some(d) => [d]
          case None => []) + DecodeEach(rs[1..], decode)
  }

  /** The unversioned format: bond-less records back to back, `count` of them from `offset`. */
  function LegacyRecords(data: seq<u8>, offset: nat, count: nat): seq<seq<u8>>
    decreases count
  {
    if count == 0 || offset + NAME_OFFSET > |data| then [] else
    var end := offset + NAME_OFFSET + data[offset + 8] as nat;
    if end > |data| then [] else
    [data[offset..end]] + LegacyRecords(data, end, count - 1)
  }

  function DecodeLegacy(record: seq<u8>): Option<PairedDevice> {
    match DecodeBase(record)
    case Some((d, _)) => Some(d)
    case None => None
  }

  function Decoded(data: seq<u8>): seq<PairedDevice> {
    if data == [] then []
    else if IsVersioned(data) then DecodeEach(Records(data), DecodeDevice)
    else DecodeEach(LegacyRecords(data, 1, data[0]), DecodeLegacy)
  }

  /** The list a flash item loads to. */
  function Loaded(item: Option<seq<u8>>): (ds: seq<PairedDevice>)
    ensures |ds| <= MAX_PAIRED_DEVICES
  {
    match item
    case Some(data) => Take(Decoded(data), MAX_PAIRED_DEVICES)
    case None => []
  }

  /** The item that stores the list `ds`. */
  ghost function Stored(ds: seq<PairedDevice>): Option<seq<u8>>
    requires |ds| <= MAX_PAIRED_DEVICES
  {
    Some(Blob(EncodeAll(ds)))
  }

  lemma {:induction false} DecodeAllInverse(ds: seq<PairedDevice>)
    ensures DecodeEach(EncodeAll(ds), DecodeDevice) == ds
  {
    if ds != [] {
      DeviceRoundTrip(ds[0]);
      assert EncodeAll(ds)[1..] == EncodeAll(ds[1..]);
      DecodeAllInverse(ds[1..]);
    }
  }

  /** Saving and loading a list gives it back: same devices, same order, bonds and names intact. */
  lemma SaveThenLoad(ds: seq<PairedDevice>)
    requires |ds| <= 4
    ensures Loaded(Stored(ds)) == ds
  {
    var rs := EncodeAll(ds);
    BlobRoundTrip(rs, []);
    assert Blob(rs) + [] == Blob(rs);
    DecodeAllInverse(ds);
  }

  lemma {:induction false} DecodeEachConcat(
      a: seq<seq<u8>>, b: seq<seq<u8>>, decode: seq<u8> -> Option<PairedDevice>)
    ensures DecodeEach(a + b, decode) == DecodeEach(a, decode) + DecodeEach(b, decode)
  {
    if a == [] {
      assert a + b == b;
    } else {
      assert (a + b)[0] == a[0] && (a + b)[1..] == a[1..] + b;
      DecodeEachConcat(a[1..], b, decode);
    }
  }

  lemma LoadedBlob(rs: seq<seq<u8>>)
    requires AreRecords(rs)
    ensures Loaded(Some(Blob(rs))) == Take(DecodeEach(rs, DecodeDevice), MAX_PAIRED_DEVICES)
  {
    BlobRoundTrip(rs, []);
    assert Blob(rs) + [] == Blob(rs);
  }

  lemma DecodesWithout(
      before: seq<seq<u8>>, r: seq<u8>, after: seq<seq<u8>>, decode: seq<u8> -> Option<PairedDevice>)
    requires decode(r).None?
    ensures DecodeEach(before + [r] + after, decode) == DecodeEach(before + after, decode)
  {
    DecodeEachConcat(before + [r], after, decode);
    DecodeEachConcat(before, [r], decode);
    DecodeEachConcat(before, after, decode);
    assert DecodeEach([r], decode) == [] by {
      assert [r][1..] == [];
    }
  }

  /** A record that cannot be decoded is passed over: the item loads as if it were not there. */
  lemma DamagedRecordIsSkipped(before: seq<seq<u8>>, r: seq<u8>, after: seq<seq<u8>>)
    requires AreRecords(before + [r] + after) && AreRecords(before + after) && DecodeDevice(r).None?
    ensures Loaded(Some(Blob(before + [r] + after))) == Loaded(Some(Blob(before + after)))
  {
    LoadedBlob(before + [r] + after);
    LoadedBlob(before + after);
    DecodesWithout(before, r, after, DecodeDevice);
  }

  lemma {:induction false} BodyBound(ds: seq<PairedDevice>)
    requires |ds| <= MAX_PAIRED_DEVICES
    ensures |Body(EncodeAll(ds))| <= |ds| * (1 + MAX_DEVICE_RECORD)
  {
    if ds != [] {
      assert EncodeAll(ds)[1..] == EncodeAll(ds[1..]);
      BodyBound(ds[1..]);
    }
  }

  /** Any list of four devices takes at most 375 of the 512 bytes of the buffer. */
  lemma BlobBound(ds: seq<PairedDevice>)
    requires |ds| <= MAX_PAIRED_DEVICES
    ensures |Blob(EncodeAll(ds))| <= 375 < MAX_RECORD_SIZE
  {
    BodyBound(ds);
  }

  lemma {:induction false} DecodeEachPrefix(
      rs: seq<seq<u8>>, more: seq<seq<u8>>, decode: seq<u8> -> Option<PairedDevice>)
    requires rs <= more
    ensures DecodeEach(rs, decode) <= DecodeEach(more, decode)
  {
    if rs != [] {
      DecodeEachPrefix(rs[1..], more[1..], decode);
    }
  }

  /** `ds` after decoding `rs` one by one, each appended unless the list is full. */
  function Accumulated(
      ds: seq<PairedDevice>, rs: seq<seq<u8>>, decode: seq<u8> -> Option<PairedDevice>): seq<PairedDevice>
    decreases |rs|
  {
    if rs == [] then ds else
    var next := match decode(rs[0])
                case Some(d) => if |ds| < MAX_PAIRED_DEVICES then ds + [d] else ds
                case None => ds;
    Accumulated(next, rs[1..], decode)
  }

  lemma {:induction false} AccumulatedMeaning(
      ds: seq<PairedDevice>, rs: seq<seq<u8>>, decode: seq<u8> -> Option<PairedDevice>)
    requires |ds| <= MAX_PAIRED_DEVICES
    ensures Accumulated(ds, rs, decode) == Take(ds + DecodeEach(rs, decode), MAX_PAIRED_DEVICES)
    decreases |rs|
  {
    if rs == [] {
      assert ds + [] == ds;
    } else {
      var decoded := DecodeEach(rs[1..], decode);
      match decode(rs[0]) {
        case Some(d) =>
          var next := if |ds| < MAX_PAIRED_DEVICES then ds + [d] else ds;
          AccumulatedMeaning(next, rs[1..], decode);
          assert ds + ([d] + decoded) == (ds + [d]) + decoded;
        case None =>
          AccumulatedMeaning(ds, rs[1..], decode);
          assert ds + ([] + decoded) == ds + decoded;
      }
    }
  }

  // ─── The unversioned format ────────────────────────────────────────────────

  /** A record of the unversioned format: nine bytes, the last of them the length of the name that follows. */
  predicate IsLegacyRecord(r: seq<u8>) {
    |r| >= 9 && |r| == 9 + r[8] as nat
  }

  /** No record stands at `at`: there are too few bytes for one. */
  predicate NoLegacyAt(data: seq<u8>, at: nat) {
    at + 9 > |data| || at + 9 + data[at + 8] as nat > |data|
  }

  function Joined(rs: seq<seq<u8>>): seq<u8> {
    if rs == [] then [] else rs[0] + Joined(rs[1..])
  }

  lemma FirstLegacy(data: seq<u8>, offset: nat, r: seq<u8>, rest: seq<u8>, count: nat)
    requires IsLegacyRecord(r) && count > 0 && HoldsAt(data, offset, r + rest)
    ensures HoldsAt(data, offset + |r|, rest)
    ensures LegacyRecords(data, offset, count) == [r] + LegacyRecords(data, offset + |r|, count - 1)
  {
    var all := r + rest;
    forall i | 0 <= i < |r|
      ensures data[offset + i] == r[i]
    {
      assert all[i] == r[i];
    }
    forall i | 0 <= i < |rest|
      ensures data[offset + |r| + i] == rest[i]
    {
      assert all[|r| + i] == data[offset + (|r| + i)];
    }
    assert data[offset + 8] == r[8] && data[offset..offset + |r|] == r;
  }

  /** Records back to back are split where they were joined, up to the count or to where none stands. */
  lemma {:induction false} LegacyRecordsOf(data: seq<u8>, offset: nat, rs: seq<seq<u8>>, count: nat)
    requires (forall r | r in rs :: IsLegacyRecord(r)) && HoldsAt(data, offset, Joined(rs))
    requires count == |rs| || (count > |rs| && NoLegacyAt(data, offset + |Joined(rs)|))
    ensures LegacyRecords(data, offset, count) == rs
    decreases |rs|
  {
    if rs != [] {
      assert rs[0] in rs && forall r | r in rs[1..] :: r in rs;
      FirstLegacy(data, offset, rs[0], Joined(rs[1..]), count);
      LegacyRecordsOf(data, offset + |rs[0]|, rs[1..], count - 1);
      assert rs == [rs[0]] + rs[1..];
    }
  }

  /** The unversioned records of the devices. */
  function LegacyAll(ds: seq<PairedDevice>): (rs: seq<seq<u8>>)
    ensures forall r | r in rs :: IsLegacyRecord(r)
    ensures |rs| == |ds|
  {
    if ds == [] then [] else
    var r := EncodeBase(ds[0]);
    assert r[8] == |Encode(ds[0].name)|;
    [r] + LegacyAll(ds[1..])
  }

  function WithoutBonds(ds: seq<PairedDevice>): (r: seq<PairedDevice>)
    ensures |r| == |ds| && forall i | 0 <= i < |ds| :: r[i] == ds[i].(bond := None)
  {
    if ds == [] then [] else [ds[0].(bond := None)] + WithoutBonds(ds[1..])
  }

  lemma {:induction false} DecodeLegacyInverse(ds: seq<PairedDevice>)
    ensures DecodeEach(LegacyAll(ds), DecodeLegacy) == WithoutBonds(ds)
  {
    if ds != [] {
      DecodeBaseInverse(ds[0], []);
      assert EncodeBase(ds[0]) + [] == EncodeBase(ds[0]);
      assert LegacyAll(ds)[1..] == LegacyAll(ds[1..]);
      DecodeLegacyInverse(ds[1..]);
    }
  }

  /**
   An item of the unversioned format, a count and the records of that many devices, or of fewer
   and then nothing that could be one more, loads to these devices without bonds, the first four.
   */
  lemma LegacyItemLoads(data: seq<u8>, ds: seq<PairedDevice>)
    requires HoldsAt(data, 1, Joined(LegacyAll(ds))) && !IsVersioned(data)
    requires data[0] == |ds| || (data[0] as nat > |ds| && NoLegacyAt(data, 1 + |Joined(LegacyAll(ds))|))
    ensures Loaded(Some(data)) == Take(WithoutBonds(ds), 4)
  {
    LegacyRecordsOf(data, 1, LegacyAll(ds), data[0]);
    DecodeLegacyInverse(ds);
  }

  lemma {:induction false} LegacyTruncated(data: seq<u8>, k: nat, offset: nat, count: nat)
    requires k <= |data|
    ensures LegacyRecords(data[..k], offset, count) <= LegacyRecords(data, offset, count)
    decreases count
  {
    if count > 0 && offset + NAME_OFFSET <= k {
      var end := offset + NAME_OFFSET + data[offset + 8] as nat;
      if end <= k {
        assert data[..k][offset..end] == data[offset..end];
        LegacyTruncated(data, k, end, count - 1);
      }
    }
  }

  /** A truncated item, versioned or legacy, loads to a prefix of what the whole item loads to. */
  lemma TruncatedLoad(data: seq<u8>, k: nat)
    requires k <= |data|
    ensures Loaded(Some(data[..k])) <= Loaded(Some(data))
  {
    if k == 0 {
    } else if IsVersioned(data[..k]) {
      TruncationYieldsPrefix(data, k);
      DecodeEachPrefix(Records(data[..k]), Records(data), DecodeDevice);
    } else if IsVersioned(data) {
      assert LegacyRecords(data[..k], 1, data[0]) == [];
    } else {
      LegacyTruncated(data, k, 1, data[0]);
      DecodeEachPrefix(LegacyRecords(data[..k], 1, data[0]), LegacyRecords(data, 1, data[0]), DecodeLegacy);
    }
  }

  // ─── The cache as a value ──────────────────────────────────────────────────

  /** Cached devices, oldest first, and whether they may differ from flash. */
  datatype Cache = Cache(devices: seq<PairedDevice>, dirty: bool)

  /** Position of the first device satisfying `p`; the length if there is none. */
  function FirstWhere(ds: seq<PairedDevice>, p: PairedDevice -> bool): (i: nat)
    ensures i <= |ds|
    ensures i < |ds| ==> p(ds[i])
    ensures forall j | 0 <= j < i :: !p(ds[j])
  {
    if ds == [] || p(ds[0]) then 0 else 1 + FirstWhere(ds[1..], p)
  }

  function Added(c: Cache, device: PairedDevice): Cache {
    var i := FirstWhere(c.devices, (d: PairedDevice) => d.address == device.address);
    if i < |c.devices| then
      var existing := c.devices[i];
      var bondChanged := device.bond.Some? && existing.bond != device.bond;
      var updated := existing.(lastRssi := device.lastRssi, name := device.name,
                               bond := if bondChanged then device.bond else existing.bond);
      Cache(c.devices[i := updated], c.dirty || existing.name != device.name || bondChanged)
    else
      var kept := if |c.devices| >= MAX_PAIRED_DEVICES then c.devices[1..] else c.devices;
      Cache(kept + [device], true)
  }

  function WithBond(c: Cache, address: Address, bond: BondInfo, isMatch: Address -> bool): Cache {
    var i := FirstWhere(c.devices, (d: PairedDevice) => d.address == address || isMatch(d.address));
    if i < |c.devices| && c.devices[i].bond != Some(bond) then
      Cache(c.devices[i := c.devices[i].(bond := Some(bond))], true)
    else c
  }

  /**
   A bond is written to the first entry that has the address or that its key resolves, and to
   nothing else; the cache becomes dirty exactly if that changes it.
   */
  lemma BondMeaning(c: Cache, address: Address, bond: BondInfo, isMatch: Address -> bool, k: nat)
    ensures var after := WithBond(c, address, bond, isMatch);
            && (after.dirty <==> c.dirty || after.devices != c.devices)
            && (k < |c.devices| && (c.devices[k].address == address || isMatch(c.devices[k].address))
                && (forall j | 0 <= j < k :: c.devices[j].address != address && !isMatch(c.devices[j].address)) ==>
                  after.devices == c.devices[k := c.devices[k].(bond := Some(bond))])
            && ((forall j | 0 <= j < |c.devices| :: c.devices[j].address != address && !isMatch(c.devices[j].address)) ==>
                  after.devices == c.devices)
  {
    var i := FirstWhere(c.devices, (d: PairedDevice) => d.address == address || isMatch(d.address));
    if i < |c.devices| {
      var d := c.devices[i];
      assert d.bond == Some(bond) ==> c.devices[i := d.(bond := Some(bond))] == c.devices;
    }
  }

  ghost predicate DistinctAddresses(ds: seq<PairedDevice>) {
    forall i, j | 0 <= i < j < |ds| :: ds[i].address != ds[j].address
  }

  /** `d` and `e` agree on everything that is worth a flash write. */
  predicate SameButRssi(d: PairedDevice, e: PairedDevice) {
    d.address == e.address && d.name == e.name && d.bond == e.bond
  }

  ghost predicate AllSameButRssi(ds: seq<PairedDevice>, es: seq<PairedDevice>) {
    |ds| == |es| && forall i | 0 <= i < |ds| :: SameButRssi(ds[i], es[i])
  }

  /**
   Adding a known address updates that entry in place and never drops its bond; adding a new
   one appends it, evicting only the oldest entry and only from a full cache.
   */
  lemma AddedMeaning(c: Cache, device: PairedDevice, k: nat)
    requires |c.devices| <= MAX_PAIRED_DEVICES && DistinctAddresses(c.devices)
    ensures DistinctAddresses(Added(c, device).devices)
    ensures |Added(c, device).devices| <= MAX_PAIRED_DEVICES
    ensures k < |c.devices| && c.devices[k].address == device.address ==>
              && Added(c, device).devices
                 == c.devices[k := device.(bond := if device.bond.Some? then device.bond else c.devices[k].bond)]
              && (Added(c, device).dirty <==> c.dirty || !AllSameButRssi(c.devices, Added(c, device).devices))
    ensures (forall i | 0 <= i < |c.devices| :: c.devices[i].address != device.address) ==>
              && Added(c, device).dirty
              && Added(c, device).devices
                 == c.devices[if |c.devices| == 4 then 1 else 0..] + [device]
  {
    var after := Added(c, device).devices;
    var i := FirstWhere(c.devices, (d: PairedDevice) => d.address == device.address);
    if i < |c.devices| {
      assert forall j | 0 <= j < |c.devices| :: after[j].address == c.devices[j].address;
      assert SameButRssi(c.devices[i], after[i]) <==> AllSameButRssi(c.devices, after);
    }
  }

  // ─── The store and its flash ───────────────────────────────────────────────

  /** The one key of the flash map that the store uses. */
  class Flash {
    var item: Option<seq<u8>>

    constructor (item: Option<seq<u8>>)
      ensures this.item == item
    {
      this.item := item;
    }

    /** A write that may fail, leaving the old item in place. */
    method StoreItem(data: seq<u8>, succeeds: bool)
      modifies this
      ensures item == if succeeds then Some(data) else old(item)
    {
      if succeeds {
        item := Some(data);
      }
    }
  }

  /** `serialize` writes the bytes `record` into every slice they fit and rejects the others. */
  ghost predicate Writes(serialize: Serializer, record: seq<u8>) {
    forall slice {:trigger serialize(slice)} ::
      && |serialize(slice).0| == |slice|
      && serialize(slice).1 == (if |record| <= |slice| then |record| else 0)
      && (|record| <= |slice| ==> record <= serialize(slice).0)
  }

  /** The closure that `serialize_all` hands to the writer. */
  method SerializerFor(device: PairedDevice) returns (serialize: Serializer)
    ensures Writes(serialize, EncodeDevice(device))
  {
    serialize := slice => Serialize(device, slice);
  }

  method PushRecord(writer: Writer, serialize: Serializer, ghost record: seq<u8>) returns (ok: bool)
    requires writer.Valid() && |writer.accepted| < MAX_COUNT
    requires Writes(serialize, record) && IsRecord(record)
    modifies writer, writer.buf
    ensures writer.Valid()
    ensures ok <==> old(writer.offset) + 1 + |record| <= writer.buf.Length
    ensures writer.accepted == if ok then old(writer.accepted) + [record] else old(writer.accepted)
  {
    ghost var start := writer.offset + 1;
    ghost var slice := if start < writer.buf.Length then writer.buf[start..] else [];
    assert |record| <= |slice| ==> serialize(slice).0[..|record|] == record;
    ok := writer.Push(serialize);
  }

  /** `writer.push(|slot| device.serialize(slot))` after the devices `ds`. */
  method PushDevice(writer: Writer, device: PairedDevice, ghost ds: seq<PairedDevice>) returns (ok: bool)
    requires writer.Valid() && |ds| < MAX_PAIRED_DEVICES && writer.accepted == EncodeAll(ds)
    modifies writer, writer.buf
    ensures writer.Valid()
    ensures writer.accepted == EncodeAll(if ok then ds + [device] else ds)
    ensures ok <==> |Blob(EncodeAll(ds + [device]))| <= writer.buf.Length
  {
    ghost var record := EncodeDevice(device);
    EncodeAllAppend(ds, device);
    BodyAppend(EncodeAll(ds), record);
    assert |Blob(EncodeAll(ds + [device]))| == writer.offset + 1 + |record|;
    var serialize := SerializerFor(device);
    ok := PushRecord(writer, serialize, record);
  }

  class DeviceStore {
    var devices: seq<PairedDevice>
    var dirty: bool

    ghost predicate Valid()
      reads this
    {
      |devices| <= MAX_PAIRED_DEVICES
    }

    ghost function Value(): Cache
      reads this
    {
      Cache(devices, dirty)
    }

    constructor ()
      ensures Valid() && Value() == Cache([], false)
    {
      devices, dirty := [], false;
    }

    /** `load_from_flash`; a failed read leaves an empty, clean cache. */
    method LoadFromFlash(flash: Flash, readable: bool)
      modifies this
      ensures Valid()
      ensures Value() == Cache(if readable then Loaded(flash.item) else [], false)
    {
      devices := [];
      if readable && flash.item.Some? {
        DeserializeAll(flash.item.value);
        assert [] + Decoded(flash.item.value) == Decoded(flash.item.value);
      }
      dirty := false;
    }

    method DeserializeAll(data: seq<u8>)
      requires Valid()
      modifies this`devices
      ensures devices == Take(old(devices) + Decoded(data), MAX_PAIRED_DEVICES)
    {
      if data == [] {
        assert devices + Decoded(data) == devices;
        return;
      }
      if IsVersioned(data) {
        DeserializeVersioned(data);
      } else {
        DeserializeLegacy(data);
      }
    }

    method DeserializeVersioned(data: seq<u8>)
      requires Valid()
      modifies this`devices
      ensures devices == Take(old(devices) + DecodeEach(Records(data), DecodeDevice), MAX_PAIRED_DEVICES)
    {
      AccumulatedMeaning(devices, Records(data), DecodeDevice);
      var reader := new RecordReader(data);
      AppendRecords(reader, DecodeDevice);
    }

    method AppendRecords(reader: RecordReader, decode: seq<u8> -> Option<PairedDevice>)
      requires reader.Valid()
      modifies this`devices, reader
      ensures devices == Accumulated(old(devices), old(reader.rest), decode)
    {
      while true
        invariant reader.Valid()
        invariant Accumulated(devices, reader.rest, decode) == Accumulated(old(devices), old(reader.rest), decode)
        decreases |reader.rest|
      {
        var record := reader.Next();
        if record.None? {
          break;
        }
        var device := decode(record.value);
        if device.Some? && |devices| < MAX_PAIRED_DEVICES {
          devices := devices + [device.value];
        }
      }
    }

    method DeserializeLegacy(data: seq<u8>)
      requires Valid() && data != []
      modifies this`devices
      ensures devices
              == Take(old(devices) + DecodeEach(LegacyRecords(data, 1, data[0]), DecodeLegacy), MAX_PAIRED_DEVICES)
    {
      AccumulatedMeaning(devices, LegacyRecords(data, 1, data[0]), DecodeLegacy);
      AppendLegacy(data, DecodeLegacy);
    }

    method AppendLegacy(data: seq<u8>, decode: seq<u8> -> Option<PairedDevice>)
      requires data != []
      modifies this`devices
      ensures devices == Accumulated(old(devices), LegacyRecords(data, 1, data[0]), decode)
    {
      var offset: nat := 1;
      var count := data[0] as nat;
      for done := 0 to count
        invariant Accumulated(devices, LegacyRecords(data, offset, count - done), decode)
               == Accumulated(old(devices), LegacyRecords(data, 1, count), decode)
      {
        if offset >= |data| || offset + NAME_OFFSET > |data| {
          break;
        }
        var recordLength := NAME_OFFSET + data[offset + 8] as nat;
        if offset + recordLength > |data| {
          break;
        }
        var device := decode(data[offset..offset + recordLength]);
        if device.Some? && |devices| < MAX_PAIRED_DEVICES {
          devices := devices + [device.value];
        }
        offset := offset + recordLength;
      }
    }

    /**
     `serialize_all`: frames the longest prefix of the devices that fits the buffer.
     */
    method SerializeAll(buf: array<u8>) returns (length: nat, ghost k: nat)
      requires Valid()
      modifies buf
      ensures length <= buf.Length && k <= |devices|
      ensures buf.Length < HEADER ==> length == 0
      ensures buf.Length >= HEADER ==> buf[..length] == Blob(EncodeAll(devices[..k]))
      ensures buf.Length >= HEADER && k < |devices| ==> |Blob(EncodeAll(devices[..k + 1]))| > buf.Length
    {
      k := 0;
      var writer := Writer.New(buf);
      if writer == null {
        return 0, 0;
      }
      k := PushAll(writer);
      length := writer.Finish();
    }

    method PushAll(writer: Writer) returns (ghost k: nat)
      requires Valid() && writer.Valid() && writer.accepted == []
      modifies writer, writer.buf
      ensures writer.Valid() && k <= |devices|
      ensures writer.accepted == EncodeAll(devices[..k])
      ensures k < |devices| ==> |Blob(EncodeAll(devices[..k + 1]))| > writer.buf.Length
    {
      k := 0;
      for i := 0 to |devices|
        invariant k == i && writer.Valid()
        invariant writer.accepted == EncodeAll(devices[..i])
      {
        assert devices[..i + 1] == devices[..i] + [devices[i]];
        var ok := PushDevice(writer, devices[i], devices[..i]);
        if !ok {
          break;
        }
        k := i + 1;
      }
    }

    /** `save_to_flash`: `succeeds[i]` tells whether write attempt `i` goes through. */
    method SaveToFlash(flash: Flash, succeeds: seq<bool>)
      requires Valid() && |succeeds| == FLASH_WRITE_ATTEMPTS
      modifies this`dirty, flash
      ensures (Value(), flash.item) == Saved(old(Value()), old(flash.item), succeeds)
    {
      if !dirty {
        return;
      }
      var dataBuf := new u8[MAX_RECORD_SIZE](_ => 0);
      var length, k := SerializeAll(dataBuf);
      BlobBound(devices[..k]);
      if k < |devices| {
        BlobBound(devices[..k + 1]);
      }
      assert devices[..k] == devices;
      var item := dataBuf[..length];
      for attempt := 0 to FLASH_WRITE_ATTEMPTS
        invariant dirty && flash.item == old(flash.item)
        invariant forall i | 0 <= i < attempt :: !succeeds[i]
      {
        flash.StoreItem(item, succeeds[attempt]);
        if succeeds[attempt] {
          dirty := false;
          return;
        }
      }
    }

    method Add(device: PairedDevice)
      requires Valid()
      modifies this
      ensures Valid() && Value() == Added(old(Value()), device)
    {
      var i := FirstWhere(devices, (d: PairedDevice) => d.address == device.address);
      if i < |devices| {
        var existing := devices[i];
        var nameChanged := existing.name != device.name;
        var bondChanged := device.bond.Some? && existing.bond != device.bond;
        existing := existing.(lastRssi := device.lastRssi);
        if nameChanged {
          existing := existing.(name := device.name);
        }
        if bondChanged {
          existing := existing.(bond := device.bond);
        }
        devices := devices[i := existing];
        if nameChanged || bondChanged {
          dirty := true;
        }
        return;
      }
      if |devices| == MAX_PAIRED_DEVICES {
        devices := devices[1..];
      }
      devices := devices + [device];
      dirty := true;
    }

    method SetBondForAddress(address: Address, bond: BondInfo, isMatch: Address -> bool)
      requires Valid()
      modifies this
      ensures Valid() && Value() == WithBond(old(Value()), address, bond, isMatch)
    {
      var i := FirstWhere(devices, (d: PairedDevice) => d.address == address || isMatch(d.address));
      if i < |devices| && devices[i].bond != Some(bond) {
        devices := devices[i := devices[i].(bond := Some(bond))];
        dirty := true;
      }
    }
  }

  lemma {:induction false} EncodeAllAppend(ds: seq<PairedDevice>, d: PairedDevice)
    ensures EncodeAll(ds + [d]) == EncodeAll(ds) + [EncodeDevice(d)]
  {
    assert forall i | 0 <= i < |ds| + 1 :: EncodeAll(ds + [d])[i] == (EncodeAll(ds) + [EncodeDevice(d)])[i];
  }

  // ─── Coherence over every run ──────────────────────────────────────────────

  ghost function Saved(c: Cache, item: Option<seq<u8>>, succeeds: seq<bool>): (Cache, Option<seq<u8>>)
    requires |c.devices| <= MAX_PAIRED_DEVICES
  {
    if c.dirty && true in succeeds then (c.(dirty := false), Stored(c.devices)) else (c, item)
  }

  /**
   A save leaves the devices alone. It writes exactly if the cache is dirty and some attempt goes
   through; then flash loads to just these devices and the cache is clean.
   */
  lemma SavedMeaning(c: Cache, item: Option<seq<u8>>, succeeds: seq<bool>)
    requires |c.devices| <= MAX_PAIRED_DEVICES
    ensures var (c', item') := Saved(c, item, succeeds);
            && c'.devices == c.devices
            && (if c.dirty && true in succeeds then Loaded(item') == c.devices && !c'.dirty
                else item' == item && c'.dirty == c.dirty)
  {
    SaveThenLoad(c.devices);
  }

  datatype Operation =
    | Load
    | FailedLoad // the flash item could not be read
    | Add(device: PairedDevice)
    | SetBond(address: Address, bond: BondInfo, isMatch: Address -> bool)
    | Save(succeeds: seq<bool>)

  /** The cache and the flash item behind it. */
  datatype World = World(cache: Cache, item: Option<seq<u8>>)

  ghost function Perform(w: World, op: Operation): (w': World)
    requires |w.cache.devices| <= MAX_PAIRED_DEVICES
    ensures |w'.cache.devices| <= MAX_PAIRED_DEVICES
  {
    match op
    case Load => w.(cache := Cache(Loaded(w.item), false))
    case FailedLoad => w.(cache := Cache([], false))
    case Add(device) => w.(cache := Added(w.cache, device))
    case SetBond(address, bond, isMatch) => w.(cache := WithBond(w.cache, address, bond, isMatch))
    case Save(succeeds) => var (c, item) := Saved(w.cache, w.item, succeeds); World(c, item)
  }

  ghost function Run(w: World, ops: seq<Operation>): (w': World)
    requires |w.cache.devices| <= MAX_PAIRED_DEVICES
    ensures |w'.cache.devices| <= MAX_PAIRED_DEVICES
    decreases |ops|
  {
    if ops == [] then w else Perform(Run(w, ops[..|ops| - 1]), ops[|ops| - 1])
  }

  /** A clean cache shows what flash would load to, RSSI hints aside. */
  ghost predicate Coherent(w: World) {
    !w.cache.dirty ==> AllSameButRssi(Loaded(w.item), w.cache.devices)
  }

  lemma AddedCoherent(w: World, device: PairedDevice)
    requires |w.cache.devices| <= MAX_PAIRED_DEVICES && Coherent(w)
    ensures Coherent(w.(cache := Added(w.cache, device)))
  {}

  /** A load that fails finds an item that would load to nothing anyway. */
  ghost predicate LosesNothing(w: World, op: Operation) {
    op.FailedLoad? ==> Loaded(w.item) == []
  }

  lemma PerformCoherent(w: World, op: Operation)
    requires |w.cache.devices| <= MAX_PAIRED_DEVICES
    requires Coherent(w) || op.Load? || op.FailedLoad?
    ensures Coherent(Perform(w, op)) <==> LosesNothing(w, op)
  {
    match op {
      case Load =>
      case FailedLoad =>
      case Add(device) => AddedCoherent(w, device);
      case SetBond(_, _, _) =>
      case Save(_) => SaveThenLoad(w.cache.devices);
    }
  }

  /** The state after the first `k` operations. */
  ghost function At(w: World, ops: seq<Operation>, k: nat): (w': World)
    requires |w.cache.devices| <= MAX_PAIRED_DEVICES && k <= |ops|
    ensures |w'.cache.devices| <= MAX_PAIRED_DEVICES
  {
    Run(w, ops[..k])
  }

  lemma AtNext(w: World, ops: seq<Operation>, k: nat)
    requires |w.cache.devices| <= MAX_PAIRED_DEVICES && k < |ops|
    ensures At(w, ops, k + 1) == Perform(At(w, ops, k), ops[k])
  {
    assert ops[..k + 1][..k] == ops[..k];
  }

  /**
   Beginning with a load of any flash content, over every run of loads, adds, bond updates and
   saves, failed reads and writes included: a clean cache always shows what flash would load
   to, exactly if every failed load met an item that holds no device.
   */
  lemma CoherentUnlessReadFails(w: World, ops: seq<Operation>)
    requires |w.cache.devices| <= MAX_PAIRED_DEVICES && ops != [] && (ops[0].Load? || ops[0].FailedLoad?)
    ensures (forall k | 0 < k <= |ops| :: Coherent(At(w, ops, k)))
            <==> (forall k | 0 <= k < |ops| :: LosesNothing(At(w, ops, k), ops[k]))
  {
    var good := (k: nat) => k <= |ops| && Coherent(At(w, ops, k));
    var sound := (k: nat) => k < |ops| && LosesNothing(At(w, ops, k), ops[k]);
    forall k: nat | k < |ops| && (k == 0 || good(k))
      ensures good(k + 1) <==> sound(k)
    {
      AtNext(w, ops, k);
      PerformCoherent(At(w, ops, k), ops[k]);
    }
    AllGoodIff(good, sound, |ops|);
    assert forall k: nat | k <= |ops| :: good(k) == Coherent(At(w, ops, k));
    assert forall k: nat | k < |ops| :: sound(k) == LosesNothing(At(w, ops, k), ops[k]);
  }

  /**
   Starting with a load from any flash content, no run whose reads succeed ever shows a clean
   cache that differs from flash; writes may fail.
   */
  lemma AlwaysCoherent(w: World, ops: seq<Operation>)
    requires |w.cache.devices| <= MAX_PAIRED_DEVICES
    requires ops != [] && ops[0] == Load
    requires forall op | op in ops :: !op.FailedLoad?
    ensures Coherent(Run(w, ops))
  {
    CoherentUnlessReadFails(w, ops);
    assert forall k | 0 <= k < |ops| :: ops[k] in ops;
    assert ops[..|ops|] == ops && Coherent(At(w, ops, |ops|));
  }

  lemma AddedFirst(device: PairedDevice)
    ensures Added(Cache([], false), device) == Cache([device], true)
  {
    assert [] + [device] == [device];
  }

  lemma SavedDirty(ds: seq<PairedDevice>, item: Option<seq<u8>>, succeeds: seq<bool>)
    requires |ds| <= MAX_PAIRED_DEVICES && true in succeeds
    ensures Perform(World(Cache(ds, true), item), Save(succeeds)).item == Stored(ds)
  {}

  /**
   What a failed read costs: the next device that is added and saved replaces everything the
   unreadable item held.
   */
  lemma FailedLoadThenSaveForgets(w: World, device: PairedDevice, succeeds: seq<bool>)
    requires |w.cache.devices| <= MAX_PAIRED_DEVICES && true in succeeds
    ensures Loaded(Perform(Perform(Perform(w, FailedLoad), Add(device)), Save(succeeds)).item) == [device]
  {
    AddedFirst(device);
    SavedDirty([device], w.item, succeeds);
    SaveThenLoad([device]);
  }

  ghost predicate Distinct(w: World) {
    DistinctAddresses(w.cache.devices) && DistinctAddresses(Loaded(w.item))
  }

  lemma PerformDistinct(w: World, op: Operation)
    requires |w.cache.devices| <= MAX_PAIRED_DEVICES && Distinct(w)
    ensures Distinct(Perform(w, op))
  {
    match op {
      case Load =>
      case FailedLoad =>
      case Add(device) => AddedMeaning(w.cache, device, 0);
      case SetBond(_, _, _) =>
      case Save(_) => SaveThenLoad(w.cache.devices);
    }
  }

  /** Stored addresses stay pairwise distinct, in the cache and in flash, over every run. */
  lemma {:induction false} AddressesStayDistinct(w: World, ops: seq<Operation>)
    requires |w.cache.devices| <= MAX_PAIRED_DEVICES && Distinct(w)
    ensures Distinct(Run(w, ops))
    decreases |ops|
  {
    if ops != [] {
      var n := |ops| - 1;
      AddressesStayDistinct(w, ops[..n]);
      PerformDistinct(Run(w, ops[..n]), ops[n]);
    }
  }
}
