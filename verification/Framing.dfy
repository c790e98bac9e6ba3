/**
 Framing of the paired-device blob: magic, version, record count, then
 length-prefixed records. Independent of what a record contains.
 */
module Framing {
  import opened Types
  import opened Buffers

  const MAGIC: u8 := 0xB2
  const VERSION: u8 := 0x01
  const HEADER: nat := 3
  const MAX_RECORD: nat := 255
  const MAX_COUNT: nat := 255

  predicate IsVersioned(data: seq<u8>) {
    |data| >= HEADER && data[0] == MAGIC && data[1] == VERSION
  }

  predicate IsRecord(r: seq<u8>) {
    0 < |r| <= MAX_RECORD
  }

  ghost predicate AreRecords(rs: seq<seq<u8>>) {
    |rs| <= MAX_COUNT && forall r | r in rs :: IsRecord(r)
  }

  function Framed(r: seq<u8>): seq<u8>
    requires IsRecord(r)
  {
    [|r|] + r
  }

  /** Length-prefixed records, one after the other. */
  ghost function Body(rs: seq<seq<u8>>): seq<u8>
    requires AreRecords(rs)
  {
    if rs == [] then [] else Framed(rs[0]) + Body(rs[1..])
  }

  /** The blob that holds exactly the records `rs`. */
  ghost function Blob(rs: seq<seq<u8>>): seq<u8>
    requires AreRecords(rs)
  {
    [MAGIC, VERSION, |rs|] + Body(rs)
  }

  lemma {:induction false} BodyAppend(rs: seq<seq<u8>>, r: seq<u8>)
    requires AreRecords(rs) && IsRecord(r) && |rs| < MAX_COUNT
    ensures Body(rs + [r]) == Body(rs) + Framed(r)
  {
    var all := rs + [r];
    assert AreRecords(all);
    if rs == [] {
      assert all[0] == r && all[1..] == [];
    } else {
      var tail := rs[1..];
      assert all[0] == rs[0] && all[1..] == tail + [r];
      BodyAppend(tail, r);
      assert Framed(rs[0]) + (Body(tail) + Framed(r)) == Framed(rs[0]) + Body(tail) + Framed(r);
    }
  }

  // ─── Writer ────────────────────────────────────────────────────────────────

  /** A serializer fills a prefix of the slice it is given and returns a byte count. */
  type Serializer = seq<u8> -> (seq<u8>, nat)

  ghost predicate KeepsLength(serialize: Serializer) {
    forall slice :: |serialize(slice).0| == |slice|
  }

  /** Builds a versioned blob in a caller-provided buffer. */
  class Writer {
    const buf: array<u8>
    var offset: nat
    var count: nat
    ghost var accepted: seq<seq<u8>>

    ghost predicate Valid()
      reads this, buf
    {
      && HEADER <= offset <= buf.Length
      && AreRecords(accepted) && count == |accepted|
      && buf[0] == MAGIC && buf[1] == VERSION
      && buf[HEADER..offset] == Body(accepted)
    }

    constructor (buf: array<u8>)
      requires buf.Length >= HEADER
      modifies buf
      ensures Valid() && this.buf == buf && accepted == []
    {
      this.buf := buf;
      offset, count, accepted := HEADER, 0, [];
      new;
      buf[0] := MAGIC;
      buf[1] := VERSION;
    }

    /** `Writer::new`: fails, leaving the buffer alone, when even the header does not fit. */
    static method New(buf: array<u8>) returns (w: Writer?)
      modifies buf
      ensures w == null <==> buf.Length < HEADER
      ensures w == null ==> buf[..] == old(buf[..])
      ensures w != null ==> fresh(w) && w.Valid() && w.buf == buf && w.accepted == []
    {
      if buf.Length < HEADER {
        return null;
      }
      w := new Writer(buf);
    }

    /**
     Accepts a record exactly when it is nonempty, at most 255 bytes and fits.
     A rejected push may have scribbled past `offset`, but the blob so far is untouched.
     */
    method Push(serialize: Serializer) returns (ok: bool)
      requires Valid() && KeepsLength(serialize)
      modifies this`offset, this`count, this`accepted, buf
      ensures Valid()
      ensures ok <==>
              && old(count) < MAX_COUNT
              && old(offset) + 1 < buf.Length
              && 0 < serialize(old(buf[offset + 1..])).1 <= MAX_RECORD
              && old(offset) + 1 + serialize(old(buf[offset + 1..])).1 <= buf.Length
      ensures !ok ==> accepted == old(accepted) && offset == old(offset)
      ensures ok ==> accepted == old(accepted) + [serialize(old(buf[offset + 1..])).0
                                                  [..serialize(old(buf[offset + 1..])).1]]
      ensures ok ==> offset == old(offset) + 1 + serialize(old(buf[offset + 1..])).1
    {
      if count == MAX_COUNT || offset + 1 >= buf.Length {
        return false;
      }
      var body := offset + 1;
      ghost var blob := buf[HEADER..offset];
      var (slice, written) := serialize(buf[body..]);
      WriteAt(buf, body, slice);
      assert buf[HEADER..offset] == blob;
      if written == 0 || written > MAX_RECORD || body + written > buf.Length {
        return false;
      }
      ghost var record := slice[..written];
      assert record == buf[body..body + written];
      buf[offset] := written;
      assert buf[HEADER..body + written] == blob + Framed(record);
      BodyAppend(accepted, record);
      accepted := accepted + [record];
      offset := body + written;
      count := count + 1;
      return true;
    }

    method Finish() returns (length: nat)
      requires Valid()
      modifies buf
      ensures length <= buf.Length && buf[..length] == Blob(accepted)
    {
      buf[2] := count;
      assert buf[..offset] == buf[..HEADER] + buf[HEADER..offset];
      return offset;
    }
  }

  // ─── Reader ────────────────────────────────────────────────────────────────

  /** The records a reader standing at `offset` still yields. */
  function RecordsFrom(data: seq<u8>, offset: nat, remaining: nat): seq<seq<u8>>
    decreases remaining
  {
    if remaining == 0 || offset >= |data| then [] else
    var end := offset + 1 + data[offset] as nat;
    if data[offset] == 0 || end > |data| then [] else
    [data[offset + 1..end]] + RecordsFrom(data, end, remaining - 1)
  }

  /** All the records of a blob. */
  function Records(data: seq<u8>): seq<seq<u8>> {
    RecordsFrom(data, HEADER, if IsVersioned(data) then data[2] else 0)
  }

  /** The iterator returned by `records`; `rest` is what it still has to yield. */
  class RecordReader {
    const data: seq<u8>
    var offset: nat
    var remaining: nat
    ghost var rest: seq<seq<u8>>

    ghost predicate Valid()
      reads this
    {
      rest == RecordsFrom(data, offset, remaining)
    }

    constructor (data: seq<u8>)
      ensures Valid() && this.data == data && rest == Records(data)
    {
      this.data := data;
      offset := HEADER;
      remaining := if IsVersioned(data) then data[2] else 0;
      rest := Records(data);
    }

    /** Yields the records in order; once it has returned nothing it stays exhausted. */
    method Next() returns (record: Option<seq<u8>>)
      requires Valid()
      modifies this
      ensures Valid()
      ensures record.Some? ==> old(rest) == [record.value] + rest
      ensures record.None? ==> old(rest) == rest == []
    {
      if remaining == 0 || offset >= |data| {
        return None;
      }
      var len := data[offset] as nat;
      var body := offset + 1;
      if len == 0 || body + len > |data| {
        remaining := 0;
        return None;
      }
      record := Some(data[body..body + len]);
      offset := body + len;
      remaining := remaining - 1;
      rest := rest[1..];
    }
  }

  // ─── Round trip and truncation ─────────────────────────────────────────────

  ghost predicate HoldsAt(data: seq<u8>, offset: nat, bytes: seq<u8>) {
    offset + |bytes| <= |data| && forall i | 0 <= i < |bytes| :: data[offset + i] == bytes[i]
  }

  /** A framed record at `offset` is the next one a reader yields. */
  lemma ReadFramed(data: seq<u8>, offset: nat, r: seq<u8>, rest: seq<u8>, remaining: nat)
    requires IsRecord(r) && HoldsAt(data, offset, Framed(r) + rest) && remaining > 0
    ensures var end := offset + 1 + |r|;
            && HoldsAt(data, end, rest)
            && RecordsFrom(data, offset, remaining) == [r] + RecordsFrom(data, end, remaining - 1)
  {
    var all, end := Framed(r) + rest, offset + 1 + |r|;
    assert all[0] == |r| && data[offset + 0] == |r|;
    forall i | 0 <= i < |r|
      ensures data[offset + 1 + i] == r[i]
    {
      assert all[1 + i] == data[offset + (1 + i)];
    }
    forall i | 0 <= i < |rest|
      ensures data[end + i] == rest[i]
    {
      assert all[1 + |r| + i] == data[offset + (1 + |r| + i)];
    }
    assert data[offset + 1..end] == r;
  }

  /** No record stands at `at`: no byte is left, the length is zero, or the record is cut short. */
  predicate NoRecordAt(data: seq<u8>, at: nat) {
    at >= |data| || data[at] == 0 || at + 1 + data[at] as nat > |data|
  }

  lemma {:induction false} ReadBody(data: seq<u8>, offset: nat, rs: seq<seq<u8>>, count: nat)
    requires AreRecords(rs) && HoldsAt(data, offset, Body(rs))
    requires count == |rs| || (count > |rs| && NoRecordAt(data, offset + |Body(rs)|))
    ensures RecordsFrom(data, offset, count) == rs
    decreases rs
  {
    if rs != [] {
      var end := offset + 1 + |rs[0]|;
      ReadFramed(data, offset, rs[0], Body(rs[1..]), count);
      ReadBody(data, end, rs[1..], count - 1);
      assert rs == [rs[0]] + rs[1..];
    }
  }

  /**
   The records of any bytes: behind magic, version and count come the framed records; reading
   stops at the count, or where no record stands. Other bytes hold no record.
   */
  lemma RecordsMeaning(data: seq<u8>, rs: seq<seq<u8>>)
    requires AreRecords(rs) && HoldsAt(data, 3, Body(rs))
    requires data[2] == |rs| || (data[2] as nat > |rs| && NoRecordAt(data, 3 + |Body(rs)|))
    ensures Records(data) == if data[0] == 0xB2 && data[1] == 0x01 then rs else []
  {
    ReadBody(data, HEADER, rs, data[2]);
  }

  /** A finished blob is read back record by record, whatever bytes follow it. */
  lemma BlobRoundTrip(rs: seq<seq<u8>>, junk: seq<u8>)
    requires AreRecords(rs)
    ensures Records(Blob(rs) + junk) == rs
  {
    RecordsMeaning(Blob(rs) + junk, rs);
  }

  /** Where record `k` of a blob stands: behind the three header bytes and the records before it. */
  function StartOf(rs: seq<seq<u8>>, k: nat): nat
    requires k <= |rs|
  {
    if k == 0 then 3 else StartOf(rs, k - 1) + 1 + |rs[k - 1]|
  }

  lemma BodyStands(rs: seq<seq<u8>>)
    requires AreRecords(rs)
    ensures HoldsAt(Blob(rs), 3, Body(rs))
  {}

  lemma {:induction false} RestStands(rs: seq<seq<u8>>, k: nat)
    requires AreRecords(rs) && k <= |rs|
    ensures AreRecords(rs[k..]) && HoldsAt(Blob(rs), StartOf(rs, k), Body(rs[k..]))
  {
    if k == 0 {
      assert rs[0..] == rs;
      BodyStands(rs);
    } else {
      var here, next := rs[k - 1..], rs[k..];
      RestStands(rs, k - 1);
      assert here[0] == rs[k - 1] && here[1..] == next;
      ReadFramed(Blob(rs), StartOf(rs, k - 1), rs[k - 1], Body(next), 1);
    }
  }

  lemma RecordStands(rs: seq<seq<u8>>, k: nat)
    requires AreRecords(rs) && k < |rs|
    ensures IsRecord(rs[k]) && HoldsAt(Blob(rs), StartOf(rs, k), Framed(rs[k]))
  {
    var rest := rs[k..];
    RestStands(rs, k);
    assert rest[0] == rs[k] && IsRecord(rs[k]);
    HoldsFirst(Blob(rs), StartOf(rs, k), Framed(rs[k]), Body(rest[1..]));
  }

  lemma FramedReads(data: seq<u8>, at: nat, r: seq<u8>)
    requires IsRecord(r) && HoldsAt(data, at, Framed(r))
    ensures at < |data| && data[at] as nat == |r| && HoldsAt(data, at + 1, r)
  {
    var framed := Framed(r);
    assert data[at + 0] == framed[0];
    forall i | 0 <= i < |r|
      ensures data[at + 1 + i] == r[i]
    {
      assert data[at + (1 + i)] == framed[1 + i];
    }
  }

  /** Byte for byte: magic 0xB2, version 1, the count, then each record behind its length. */
  lemma BlobLayout(rs: seq<seq<u8>>, k: nat)
    requires AreRecords(rs) && k < |rs|
    ensures Blob(rs)[0] == 0xB2 && Blob(rs)[1] == 0x01 && Blob(rs)[2] == |rs|
    ensures var at := StartOf(rs, k);
            at < |Blob(rs)| && Blob(rs)[at] as nat == |rs[k]| && HoldsAt(Blob(rs), at + 1, rs[k])
  {
    RecordStands(rs, k);
    FramedReads(Blob(rs), StartOf(rs, k), rs[k]);
  }

  lemma HoldsFirst(data: seq<u8>, offset: nat, a: seq<u8>, b: seq<u8>)
    requires HoldsAt(data, offset, a + b)
    ensures HoldsAt(data, offset, a)
  {
    forall i | 0 <= i < |a|
      ensures data[offset + i] == a[i]
    {
      assert (a + b)[i] == a[i];
    }
  }

  lemma {:induction false} RecordsFromTruncated(data: seq<u8>, k: nat, offset: nat, remaining: nat)
    requires k <= |data|
    ensures RecordsFrom(data[..k], offset, remaining) <= RecordsFrom(data, offset, remaining)
    decreases remaining
  {
    if remaining > 0 && offset < k {
      var end := offset + 1 + data[offset] as nat;
      if data[offset] != 0 && end <= k {
        assert data[..k][offset + 1..end] == data[offset + 1..end];
        RecordsFromTruncated(data, k, end, remaining - 1);
      }
    }
  }

  /** Cutting any bytes short yields a prefix of the records of the whole. */
  lemma TruncationYieldsPrefix(data: seq<u8>, k: nat)
    requires k <= |data|
    ensures Records(data[..k]) <= Records(data)
  {
    if IsVersioned(data[..k]) {
      RecordsFromTruncated(data, k, HEADER, data[2]);
    }
  }
}
