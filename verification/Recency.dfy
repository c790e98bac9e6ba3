/**
 Which devices boot reconnects after a device was used. The code means the most recently used
 ones; it takes the last entries of the store, and a known device keeps its old entry.
 */
module Recency {
  import opened Types
  import opened Codec
  import opened Store
  import opened Boot
  import opened Persistence

  /** The list that the next boot loads after the device was connected and persisted. */
  ghost function NextList(
    w: World, device: PairedDevice, bond: Option<BondInfo>, isMatch: Address -> bool, succeeds: seq<bool>): seq<PairedDevice>
    requires |w.cache.devices| <= MAX_PAIRED_DEVICES
  {
    Loaded(Persisted(w, device, bond, isMatch, succeeds).item)
  }

  predicate SameAddresses(ds: seq<PairedDevice>, es: seq<PairedDevice>) {
    |ds| == |es| && forall k | 0 <= k < |ds| :: ds[k].address == es[k].address
  }

  /** Entry `k` of the store is the device at `a`. */
  predicate IsEntry(ds: seq<PairedDevice>, k: int, a: Address) {
    0 <= k < |ds| && ds[k].address == a
  }

  ghost predicate IsNew(ds: seq<PairedDevice>, a: Address) {
    forall k :: !IsEntry(ds, k, a)
  }

  lemma PersistedKeepsAddresses(
    w: World, device: PairedDevice, bond: Option<BondInfo>, isMatch: Address -> bool, succeeds: seq<bool>)
    requires |w.cache.devices| <= MAX_PAIRED_DEVICES && Coherent(w) && true in succeeds
    ensures SameAddresses(NextList(w, device, bond, isMatch, succeeds), Added(w.cache, device).devices)
  {
    var added := Perform(w, Operation.Add(device));
    PerformCoherent(w, Operation.Add(device));
    var bonded := added;
    if bond.Some? {
      bonded := Perform(added, SetBond(device.address, bond.value, isMatch));
      PerformCoherent(added, SetBond(device.address, bond.value, isMatch));
      BondKeepsRest(added.cache, device.address, bond.value, isMatch);
    }
    SavedLoads(bonded, succeeds);
  }

  lemma AddsNew(c: Cache, device: PairedDevice)
    requires IsNew(c.devices, device.address)
    ensures var after := Added(c, device).devices; after != [] && after[|after| - 1] == device
    ensures |c.devices| < MAX_PAIRED_DEVICES ==> Added(c, device) == Cache(c.devices + [device], true)
  {
    var i := FirstWhere(c.devices, (d: PairedDevice) => d.address == device.address);
    assert !IsEntry(c.devices, i, device.address);
  }

  lemma AddsKnown(c: Cache, device: PairedDevice)
    requires !IsNew(c.devices, device.address)
    ensures SameAddresses(Added(c, device).devices, c.devices)
  {
    var i := FirstWhere(c.devices, (d: PairedDevice) => d.address == device.address);
    var k :| IsEntry(c.devices, k, device.address);
    assert i <= k;
  }

  /** The next list: as before if the device was known, else with the device last. */
  lemma NextListMeaning(
    w: World, device: PairedDevice, bond: Option<BondInfo>, isMatch: Address -> bool, succeeds: seq<bool>)
    requires |w.cache.devices| <= MAX_PAIRED_DEVICES && Coherent(w) && Distinct(w) && true in succeeds
    ensures var next := NextList(w, device, bond, isMatch, succeeds);
            && DistinctAddresses(next)
            && (if IsNew(w.cache.devices, device.address)
                then next != [] && next[|next| - 1].address == device.address
                else SameAddresses(next, w.cache.devices))
  {
    PersistedKeepsAddresses(w, device, bond, isMatch, succeeds);
    AddedMeaning(w.cache, device, 0);
    if IsNew(w.cache.devices, device.address) {
      AddsNew(w.cache, device);
    } else {
      AddsKnown(w.cache, device);
    }
  }

  lemma PeerEntries(ds: seq<PairedDevice>, k: nat)
    requires k < |Peers(ds)|
    ensures k < |ds| && Peers(ds)[k].address == ds[|ds| - 1 - k].address
  {
    PeersMeaning(ds, k);
  }

  lemma PeersAreLastEntries(ds: seq<PairedDevice>, a: Address)
    requires DistinctAddresses(ds)
    ensures (Peers(ds) != [] && Peers(ds)[0].address == a) <==> IsEntry(ds, |ds| - 1, a)
    ensures (exists p | p in Peers(ds) :: p.address == a) <==> IsEntry(ds, |ds| - 1, a) || IsEntry(ds, |ds| - 2, a)
  {
    var peers := Peers(ds);
    if |peers| > 0 {
      PeerEntries(ds, 0);
      assert peers[0] in peers;
    }
    if |peers| > 1 {
      PeerEntries(ds, 1);
      assert peers[1] in peers;
    }
  }

  /**
   The device just used is the first that the next boot reconnects exactly if it was new to the
   store or its last entry; it is reconnected at all exactly if it was new or one of the last two.
   */
  lemma UsedDeviceIsReconnectedIff(
    w: World, device: PairedDevice, bond: Option<BondInfo>, isMatch: Address -> bool, succeeds: seq<bool>)
    requires |w.cache.devices| <= MAX_PAIRED_DEVICES && Coherent(w) && Distinct(w) && true in succeeds
    ensures var ds, peers, a := w.cache.devices, Peers(NextList(w, device, bond, isMatch, succeeds)), device.address;
            && ((peers != [] && peers[0].address == a) <==> IsNew(ds, a) || IsEntry(ds, |ds| - 1, a))
            && ((exists p | p in peers :: p.address == a)
                <==> IsNew(ds, a) || IsEntry(ds, |ds| - 1, a) || IsEntry(ds, |ds| - 2, a))
  {
    NextListMeaning(w, device, bond, isMatch, succeeds);
    var ds, next, a := w.cache.devices, NextList(w, device, bond, isMatch, succeeds), device.address;
    PeersAreLastEntries(next, a);
    if !IsNew(ds, a) {
      assert IsEntry(next, |next| - 1, a) <==> IsEntry(ds, |ds| - 1, a);
      assert IsEntry(next, |next| - 2, a) <==> IsEntry(ds, |ds| - 2, a);
    }
  }

  // ─── Inputs ────────────────────────────────────────────────────────────────

  const BLANK: World := World(Cache([], false), None)
  const WRITES: seq<bool> := [true, true, true]

  /** The list is in the cache and in flash. */
  ghost function Clean(ds: seq<PairedDevice>): (w: World)
    requires |ds| <= MAX_PAIRED_DEVICES
    ensures |w.cache.devices| <= MAX_PAIRED_DEVICES
  {
    World(Cache(ds, false), Stored(ds))
  }

  lemma CleanIsSound(ds: seq<PairedDevice>)
    requires |ds| <= MAX_PAIRED_DEVICES && DistinctAddresses(ds)
    ensures Coherent(Clean(ds)) && Distinct(Clean(ds)) && Loaded(Clean(ds).item) == ds
  {
    SaveThenLoad(ds);
  }

  lemma SavesAll(ds: seq<PairedDevice>, item: Option<seq<u8>>)
    requires |ds| <= MAX_PAIRED_DEVICES
    ensures Perform(World(Cache(ds, true), item), Save(WRITES)) == Clean(ds)
  {
    assert WRITES[0];
  }

  /** The list after a new device was added and its bond attached. */
  function WithNew(ds: seq<PairedDevice>, device: PairedDevice, bond: Option<BondInfo>, isMatch: Address -> bool): seq<PairedDevice> {
    if bond.Some? then WithBond(Cache(ds + [device], true), device.address, bond.value, isMatch).devices else ds + [device]
  }

  lemma PersistsNew(w: World, ds: seq<PairedDevice>, device: PairedDevice, bond: Option<BondInfo>, isMatch: Address -> bool)
    requires w.cache.devices == ds && |ds| < MAX_PAIRED_DEVICES && IsNew(ds, device.address)
    ensures var all := WithNew(ds, device, bond, isMatch);
            |all| == |ds| + 1 && Persisted(w, device, bond, isMatch, WRITES) == Clean(all)
  {
    AddsNew(w.cache, device);
    var added := World(Cache(ds + [device], true), w.item);
    assert Perform(w, Operation.Add(device)) == added;
    var all := WithNew(ds, device, bond, isMatch);
    if bond.Some? {
      assert Perform(added, SetBond(device.address, bond.value, isMatch)) == World(Cache(all, true), w.item);
    }
    SavesAll(all, w.item);
  }

  /** A device without bond is connected; every write succeeds. */
  ghost function Used(w: World, device: PairedDevice): (w': World)
    requires |w.cache.devices| <= MAX_PAIRED_DEVICES
    ensures |w'.cache.devices| <= MAX_PAIRED_DEVICES
  {
    Persisted(w, device, None, (a: Address) => false, WRITES)
  }

  lemma UsesNew(w: World, ds: seq<PairedDevice>, device: PairedDevice)
    requires w.cache.devices == ds && |ds| < MAX_PAIRED_DEVICES && IsNew(ds, device.address)
    ensures Used(w, device) == Clean(ds + [device])
  {
    PersistsNew(w, ds, device, None, (a: Address) => false);
  }

  lemma ThreeUsed(a: PairedDevice, b: PairedDevice, c: PairedDevice)
    requires a.address != b.address && a.address != c.address && b.address != c.address
    ensures Used(Used(Used(BLANK, a), b), c) == Clean([a, b, c])
  {
    UsesNew(BLANK, [], a);
    assert [] + [a] == [a];
    UsesNew(Clean([a]), [a], b);
    assert [a] + [b] == [a, b];
    UsesNew(Clean([a, b]), [a, b], c);
    assert [a, b] + [c] == [a, b, c];
  }

  lemma FirstOfThreeForgotten(a: PairedDevice, b: PairedDevice, c: PairedDevice)
    requires a.address != b.address && a.address != c.address && b.address != c.address
    ensures forall p | p in Peers(Loaded(Used(Clean([a, b, c]), a).item)) :: p.address != a.address
  {
    CleanIsSound([a, b, c]);
    assert WRITES[0] && IsEntry([a, b, c], 0, a.address);
    UsedDeviceIsReconnectedIff(Clean([a, b, c]), a, None, (x: Address) => false, WRITES);
  }

  /**
   Three devices are paired one after the other and the first is used again: it was used last,
   and the next boot does not reconnect it.
   */
  lemma UsedAgainIsForgotten(a: PairedDevice, b: PairedDevice, c: PairedDevice)
    requires a.address != b.address && a.address != c.address && b.address != c.address
    ensures var again := Used(Used(Used(Used(BLANK, a), b), c), a);
            forall p | p in Peers(Loaded(again.item)) :: p.address != a.address
  {
    ThreeUsed(a, b, c);
    FirstOfThreeForgotten(a, b, c);
  }

  lemma BondIsFirst(a: PairedDevice, bond: BondInfo, isMatch: Address -> bool)
    ensures WithNew([], a, Some(bond), isMatch) == [a.(bond := Some(bond))]
  {
    var c := Cache([] + [a], true);
    BondReachesEntry(c, a.address, bond, isMatch, 0);
    assert c.devices == [a] && [a][0 := a.(bond := Some(bond))] == [a.(bond := Some(bond))];
  }

  lemma BondStaysFirst(a: PairedDevice, b: PairedDevice, bond: BondInfo, isMatch: Address -> bool)
    requires a.bond == Some(bond) && isMatch(a.address)
    ensures WithNew([a], b, Some(bond), isMatch) == [a, b]
  {
    assert [a] + [b] == [a, b];
    var i := FirstWhere([a, b], (d: PairedDevice) => d.address == b.address || isMatch(d.address));
    assert [a, b][0] == a && i == 0;
  }

  lemma FirstPairing(a: PairedDevice, bond: BondInfo, isMatch: Address -> bool)
    ensures Persisted(BLANK, a, Some(bond), isMatch, WRITES) == Clean([a.(bond := Some(bond))])
  {
    BondIsFirst(a, bond, isMatch);
    PersistsNew(BLANK, [], a, Some(bond), isMatch);
  }

  lemma SecondPairing(a: PairedDevice, b: PairedDevice, bond: BondInfo, isMatch: Address -> bool)
    requires a.bond == Some(bond) && isMatch(a.address) && a.address != b.address
    ensures Persisted(Clean([a]), b, Some(bond), isMatch, WRITES) == Clean([a, b])
  {
    BondStaysFirst(a, b, bond, isMatch);
    PersistsNew(Clean([a]), [a], b, Some(bond), isMatch);
  }

  lemma PeersOfTwo(a: PairedDevice, b: PairedDevice)
    ensures Peers([a, b]) == [PeerOf(b), PeerOf(a)]
  {}

  /**
   One keyboard paired twice under two rotating addresses that its key resolves: the store holds
   it twice, the newer entry without bond, and the next boot spends both slots on it.
   */
  lemma PairedTwiceHoldsTwoSlots(a: PairedDevice, b: PairedDevice, bond: BondInfo, isMatch: Address -> bool)
    requires a.address != b.address && b.bond.None?
    requires isMatch(a.address) && isMatch(b.address)
    ensures var once := Persisted(BLANK, a, Some(bond), isMatch, WRITES);
            var loaded := Loaded(Persisted(once, b, Some(bond), isMatch, WRITES).item);
            loaded == [a.(bond := Some(bond)), b] && Peers(loaded) == [PeerOf(b), PeerOf(a)]
  {
    var bonded := a.(bond := Some(bond));
    FirstPairing(a, bond, isMatch);
    SecondPairing(bonded, b, bond, isMatch);
    CleanIsSound([bonded, b]);
    PeersOfTwo(bonded, b);
  }
}
