/** The advertising-data walker (Bluetooth Core Specification, Vol 3, Part C, section 11). */
module Advertising {
  import opened Types
  import opened Utf8

  const INCOMPLETE_UUIDS: u8 := 0x02
  const COMPLETE_UUIDS: u8 := 0x03
  const SHORT_NAME: u8 := 0x08
  const COMPLETE_NAME: u8 := 0x09

  /** One AD structure: its type and data. */
  datatype Structure = Structure(kind: u8, data: seq<u8>)

  /** The structures of `data` from index `i` on; a zero or overlong length ends the list. */
  function StructuresFrom(data: seq<u8>, i: nat): seq<Structure>
    decreases |data| - i
  {
    if i >= |data| then [] else
    var len := data[i] as nat;
    if len == 0 || i + len >= |data| then []
    else [Structure(data[i + 1], data[i + 2..i + 1 + len])] + StructuresFrom(data, i + len + 1)
  }

  predicate ListsUuids(s: Structure) {
    s.kind == INCOMPLETE_UUIDS || s.kind == COMPLETE_UUIDS
  }

  predicate IsName(s: Structure) {
    s.kind == SHORT_NAME || s.kind == COMPLETE_NAME
  }

  /** The 16-bit UUID 0x1812 stands, little-endian, at an aligned pair of the list. */
  predicate HasHidUuid(data: seq<u8>) {
    exists j | 0 <= j < |data| / 2 :: data[2 * j] == 0x12 && data[2 * j + 1] == 0x18
  }

  predicate AnnouncesHid(s: Structure) {
    ListsUuids(s) && HasHidUuid(s.data)
  }

  predicate AnyHid(structures: seq<Structure>) {
    structures != [] && (AnnouncesHid(structures[0]) || AnyHid(structures[1..]))
  }

  /** A structure of type 2 or 3 has the bytes 0x12 0x18 at an even place `2 * j`. */
  predicate HidAt(s: Structure, j: nat) {
    (s.kind == 2 || s.kind == 3) && 2 * j + 1 < |s.data| && s.data[2 * j] == 0x12 && s.data[2 * j + 1] == 0x18
  }

  /** The service is announced by some structure of the list, at some place of it. */
  lemma {:induction false} AnyHidMeaning(structures: seq<Structure>)
    ensures AnyHid(structures) <==> exists k: nat, j: nat | k < |structures| :: HidAt(structures[k], j)
  {
    if structures != [] {
      var rest := structures[1..];
      AnyHidMeaning(rest);
      if j: nat :| j < |structures[0].data| / 2 && ListsUuids(structures[0])
                   && structures[0].data[2 * j] == 0x12 && structures[0].data[2 * j + 1] == 0x18 {
        assert HidAt(structures[0], j);
      }
      if k: nat, j: nat :| k < |rest| && HidAt(rest[k], j) {
        assert HidAt(structures[k + 1], j);
      }
      if k: nat, j: nat :| k < |structures| && HidAt(structures[k], j) && k > 0 {
        assert HidAt(rest[k - 1], j);
      }
    }
  }

  method ListsHidUuid(uuids: seq<u8>) returns (found: bool)
    ensures found == HasHidUuid(uuids)
  {
    for j := 0 to |uuids| / 2
      invariant forall k | 0 <= k < j :: !(uuids[2 * k] == 0x12 && uuids[2 * k + 1] == 0x18)
    {
      if uuids[2 * j] == 0x12 && uuids[2 * j + 1] == 0x18 {
        return true;
      }
    }
    return false;
  }

  method ContainsHidServiceUuid(data: seq<u8>) returns (found: bool)
    ensures found <==> AnyHid(StructuresFrom(data, 0))
  {
    var i: nat := 0;
    while i < |data|
      invariant AnyHid(StructuresFrom(data, i)) == AnyHid(StructuresFrom(data, 0))
    {
      var len := data[i] as nat;
      if len == 0 || i + len >= |data| {
        break;
      }
      var kind := data[i + 1];
      if kind == INCOMPLETE_UUIDS || kind == COMPLETE_UUIDS {
        var here := ListsHidUuid(data[i + 2..i + 1 + len]);
        if here {
          return true;
        }
      }
      i := i + len + 1;
    }
    return false;
  }

  /** A byte string read one character per byte. */
  function Latin1(bytes: seq<u8>): (s: string)
    ensures |s| == |bytes| && forall i | 0 <= i < |s| :: s[i] as int == bytes[i]
  {
    seq(|bytes|, i requires 0 <= i < |bytes| => bytes[i] as char)
  }

  /** `name` is the longest prefix of `whole` that fits. */
  ghost predicate IsLongestFit(name: Name, whole: string) {
    name <= whole && (name < whole ==> |Encode(whole[..|name| + 1])| > NAME_CAPACITY)
  }

  lemma ShorterIsNotLongest(a: Name, b: Name, whole: string)
    requires a <= whole && b <= whole && |a| < |b|
    ensures !IsLongestFit(a, whole)
  {
    EncodeConcat(whole[..|a| + 1], b[|a| + 1..]);
    assert whole[..|a| + 1] + b[|a| + 1..] == b;
  }

  /** The longest prefix that fits is unique, so a name is determined by its advertisement. */
  lemma LongestFitIsUnique(a: Name, b: Name, whole: string)
    requires IsLongestFit(a, whole) && IsLongestFit(b, whole)
    ensures a == b
  {
    if |a| < |b| {
      ShorterIsNotLongest(a, b, whole);
    } else if |b| < |a| {
      ShorterIsNotLongest(b, a, whole);
    }
  }

  /** The name an advertisement is listed under. */
  ghost predicate IsNameOf(name: Name, structures: seq<Structure>)
    decreases |structures|
  {
    if structures == [] then name == "Unknown"
    else if IsName(structures[0]) then IsLongestFit(name, Latin1(structures[0].data))
    else IsNameOf(name, structures[1..])
  }

  /** The first structure of type 8 or 9 is `k`. */
  predicate IsFirstName(structures: seq<Structure>, k: nat) {
    && k < |structures| && (structures[k].kind == 8 || structures[k].kind == 9)
    && forall j | 0 <= j < k :: structures[j].kind != 8 && structures[j].kind != 9
  }

  /**
   The name is the longest prefix that fits of the first structure of type 8 or 9; without such a
   structure it is Unknown.
   */
  lemma {:induction false} NameMeaning(name: Name, structures: seq<Structure>, k: nat)
    ensures IsFirstName(structures, k) ==>
              (IsNameOf(name, structures) <==> IsLongestFit(name, Latin1(structures[k].data)))
    ensures (forall j :: !IsFirstName(structures, j)) ==> (IsNameOf(name, structures) <==> name == "Unknown")
    decreases |structures|
  {
    if structures != [] {
      var rest := structures[1..];
      NameMeaning(name, rest, if k > 0 then k - 1 else 0);
      if IsName(structures[0]) {
        assert IsFirstName(structures, 0);
      } else if j: nat :| IsFirstName(rest, j) {
        assert IsFirstName(structures, j + 1);
      }
    }
  }

  method LongestFit(bytes: seq<u8>) returns (name: Name)
    ensures IsLongestFit(name, Latin1(bytes))
  {
    name := "";
    for i := 0 to |bytes|
      invariant name == Latin1(bytes)[..i]
    {
      var c := bytes[i] as char;
      assert Latin1(bytes)[..i + 1] == name + [c];
      EncodeConcat(name, [c]);
      assert Encode([c]) == EncodeChar(c);
      if !Fits(name, c) {
        return;
      }
      name := Push(name, c);
    }
  }

  lemma UnknownFits()
    ensures |Encode("Unknown")| <= NAME_CAPACITY
  {
    var s := "Unknown";
    assert s[0] == 'U' && s[1] == 'n' && s[2] == 'k' && s[3] == 'n' && s[4] == 'o' && s[5] == 'w' && s[6] == 'n';
    AsciiLength(s);
  }

  method ExtractDeviceName(data: seq<u8>) returns (name: Name)
    ensures IsNameOf(name, StructuresFrom(data, 0))
  {
    UnknownFits();
    var i: nat := 0;
    while i < |data|
      invariant forall n: Name :: IsNameOf(n, StructuresFrom(data, i)) ==> IsNameOf(n, StructuresFrom(data, 0))
    {
      var len := data[i] as nat;
      if len == 0 || i + len >= |data| {
        break;
      }
      ghost var here := Structure(data[i + 1], data[i + 2..i + 1 + len]);
      assert StructuresFrom(data, i) == [here] + StructuresFrom(data, i + len + 1);
      var kind := data[i + 1];
      if kind == SHORT_NAME || kind == COMPLETE_NAME {
        name := LongestFit(data[i + 2..i + 1 + len]);
        assert IsNameOf(name, StructuresFrom(data, i));
        return;
      }
      i := i + len + 1;
    }
    assert StructuresFrom(data, i) == [];
    return "Unknown";
  }

  // ─── Encoded advertisements ────────────────────────────────────────────────

  predicate IsEncodable(s: Structure) {
    |s.data| < 255
  }

  function EncodeStructures(list: seq<Structure>): seq<u8>
    requires forall s | s in list :: IsEncodable(s)
  {
    if list == [] then []
    else EncodeStructure(list[0]) + EncodeStructures(list[1..])
  }

  function EncodeStructure(s: Structure): seq<u8>
    requires IsEncodable(s)
  {
    [|s.data| + 1, s.kind] + s.data
  }

  /** What may follow the last structure: nothing, zero padding, or a structure cut short. */
  predicate IsTail(tail: seq<u8>) {
    tail == [] || tail[0] == 0 || tail[0] as nat >= |tail|
  }

  lemma {:induction false} StructuresShift(whole: seq<u8>, offset: nat, i: nat)
    requires offset <= |whole|
    ensures StructuresFrom(whole, offset + i) == StructuresFrom(whole[offset..], i)
    decreases |whole| - i
  {
    if offset + i < |whole| {
      var data := whole[offset..];
      var end := i + data[i] as nat + 1;
      if data[i] != 0 && end <= |data| {
        var a, b := whole[offset + i + 2..offset + end], data[i + 2..end];
        assert |a| == |b| && forall j | 0 <= j < |a| :: a[j] == b[j];
        assert a == b;
        StructuresShift(whole, offset, end);
      }
    }
  }

  lemma FirstOfEncoding(s: Structure, data: seq<u8>)
    requires IsEncodable(s) && EncodeStructure(s) <= data
    ensures StructuresFrom(data, 0) == [s] + StructuresFrom(data[|s.data| + 2..], 0)
  {
    var first := EncodeStructure(s);
    assert data[0] == first[0] && data[1] == first[1] && data[2..|first|] == first[2..];
    StructuresShift(data, |first|, 0);
  }

  /**
   The walker reads any encoded list of structures back exactly, padded or followed by a
   truncated structure as it may be; both parsers are specified over that list.
   */
  lemma {:induction false} StructuresOfEncoding(list: seq<Structure>, tail: seq<u8>)
    requires (forall s | s in list :: IsEncodable(s)) && IsTail(tail)
    ensures StructuresFrom(EncodeStructures(list) + tail, 0) == list
  {
    if list == [] {
      assert EncodeStructures(list) + tail == tail;
    } else {
      assert forall s | s in list[1..] :: s in list;
      StructuresOfEncoding(list[1..], tail);
      ReadFirst(list[0], EncodeStructures(list[1..]), tail);
    }
  }

  lemma ReadFirst(s: Structure, rest: seq<u8>, tail: seq<u8>)
    requires IsEncodable(s)
    ensures StructuresFrom(EncodeStructure(s) + rest + tail, 0) == [s] + StructuresFrom(rest + tail, 0)
  {
    var first := EncodeStructure(s);
    var data := first + rest + tail;
    assert first <= data && data[|first|..] == rest + tail;
    FirstOfEncoding(s, data);
  }
}
