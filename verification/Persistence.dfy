/** What becomes of a connected device: the coordinator's PersistDevice and the next boot. */
module Persistence {
  import opened Types
  import opened Codec
  import opened Store
  import opened Scanner
  import opened Reconnect
  import opened Protocol
  import opened SlotRuns
  import C = Coordinator

  // ─── The action ────────────────────────────────────────────────────────────

  /** Add, attach the bond if pairing produced one, save. */
  ghost function Persisted(
    w: World, device: PairedDevice, bond: Option<BondInfo>, isMatch: Address -> bool, succeeds: seq<bool>): World
    requires |w.cache.devices| <= MAX_PAIRED_DEVICES
  {
    var added := Perform(w, Operation.Add(device));
    var bonded := if bond.Some? then Perform(added, SetBond(device.address, bond.value, isMatch)) else added;
    Perform(bonded, Save(succeeds))
  }

  /** The PersistDevice arm of `execute_action`. */
  method PersistDevice(
    store: DeviceStore, flash: Flash, device: Device, bond: Option<BondInfo>, isMatch: Address -> bool,
    succeeds: seq<bool>)
    requires store.Valid() && |succeeds| == FLASH_WRITE_ATTEMPTS
    modifies store, flash
    ensures store.Valid()
    ensures World(store.Value(), flash.item)
            == Persisted(World(old(store.Value()), old(flash.item)),
                         NewPairedDevice(device.address, device.name, device.rssi), bond, isMatch, succeeds)
  {
    store.Add(NewPairedDevice(device.address, device.name, device.rssi));
    if bond.Some? {
      store.SetBondForAddress(device.address, bond.value, isMatch);
    }
    store.SaveToFlash(flash, succeeds);
  }

  /** Entry `k` is the device: its address under its current name. */
  predicate HoldsDevice(ds: seq<PairedDevice>, k: nat, device: PairedDevice) {
    k < |ds| && ds[k].address == device.address && ds[k].name == device.name
  }

  lemma AddHolds(c: Cache, device: PairedDevice) returns (k: nat)
    ensures HoldsDevice(Added(c, device).devices, k, device)
  {
    var i := FirstWhere(c.devices, (d: PairedDevice) => d.address == device.address);
    k := if i < |c.devices| then i else |Added(c, device).devices| - 1;
  }

  /**
   A bond reaches the entry of its device exactly if it resolves no earlier entry; otherwise
   that entry is left alone, and a new one stays without bond.
   */
  lemma BondReachesEntry(c: Cache, address: Address, bond: BondInfo, isMatch: Address -> bool, k: nat)
    requires DistinctAddresses(c.devices) && k < |c.devices| && c.devices[k].address == address
    ensures var after := WithBond(c, address, bond, isMatch).devices;
            if forall j | 0 <= j < k :: !isMatch(c.devices[j].address)
            then after == c.devices[k := c.devices[k].(bond := Some(bond))]
            else |after| == |c.devices| && after[k] == c.devices[k]
  {
    var i := FirstWhere(c.devices, (d: PairedDevice) => d.address == address || isMatch(d.address));
    assert i <= k;
    if forall j | 0 <= j < k :: !isMatch(c.devices[j].address) {
      assert i == k;
      if c.devices[k].bond == Some(bond) {
        assert c.devices[k := c.devices[k].(bond := Some(bond))] == c.devices;
      }
    } else {
      var j :| 0 <= j < k && isMatch(c.devices[j].address);
      assert i <= j;
    }
  }

  /**
   Once a save goes through, the next boot loads the device with its name, whatever the store
   held before; its bond comes back too unless the bond resolves an earlier entry.
   */
  lemma PersistedSurvivesReboot(
    w: World, device: PairedDevice, bond: Option<BondInfo>, isMatch: Address -> bool, succeeds: seq<bool>)
    returns (k: nat)
    requires |w.cache.devices| <= MAX_PAIRED_DEVICES && Coherent(w) && Distinct(w) && true in succeeds
    ensures var loaded := Loaded(Persisted(w, device, bond, isMatch, succeeds).item);
            && HoldsDevice(loaded, k, device)
            && (bond.Some? && (forall j | 0 <= j < k :: !isMatch(loaded[j].address)) ==> loaded[k].bond == bond)
  {
    var added := Perform(w, Operation.Add(device));
    k := AddHolds(w.cache, device);
    PerformCoherent(w, Operation.Add(device));
    PerformDistinct(w, Operation.Add(device));
    var bonded := added;
    if bond.Some? {
      bonded := Perform(added, SetBond(device.address, bond.value, isMatch));
      PerformCoherent(added, SetBond(device.address, bond.value, isMatch));
      BondReachesEntry(added.cache, device.address, bond.value, isMatch, k);
      BondKeepsRest(added.cache, device.address, bond.value, isMatch);
    }
    SavedLoads(bonded, succeeds);
  }

  /** After a save that goes through, flash loads to the cache, whether or not a write was needed. */
  lemma SavedLoads(w: World, succeeds: seq<bool>)
    requires |w.cache.devices| <= MAX_PAIRED_DEVICES && Coherent(w) && true in succeeds
    ensures AllSameButRssi(Loaded(Perform(w, Save(succeeds)).item), w.cache.devices)
  {
    PerformCoherent(w, Save(succeeds));
    assert Perform(w, Save(succeeds)).cache == w.cache.(dirty := false);
  }

  lemma BondKeepsRest(c: Cache, address: Address, bond: BondInfo, isMatch: Address -> bool)
    ensures var after := WithBond(c, address, bond, isMatch).devices;
            && |after| == |c.devices|
            && forall j | 0 <= j < |after| :: after[j].address == c.devices[j].address && after[j].name == c.devices[j].name
  {}

  // ─── The coordinator hands every connected device over ─────────────────────

  predicate IsPersist(op: Op, d: Device) {
    op.Do? && op.action == C.PersistDevice(d)
  }

  /** At step `m` the coordinator performs PersistDevice for `d`. */
  ghost predicate PersistsAt(run: seq<State>, labels: seq<Label>, m: nat, d: Device) {
    m < |labels| && m < |run| && labels[m].ExecuteNext? && run[m].todo != [] && IsPersist(run[m].todo[0], d)
  }

  /** At step `m` the coordinator learns that slot `i` is connected to `d`. */
  ghost predicate ConnectsAt(run: seq<State>, labels: seq<Label>, m: nat, i: nat, d: Device) {
    m < |labels| && m < |run| && labels[m].TakeEvent? && run[m].events != [] && run[m].events[0] == Connected(i, d)
  }

  /** Persisting `d` is planned at `n`, or was done after `m`. */
  ghost predicate HandedOver(run: seq<State>, labels: seq<Label>, m: nat, n: nat, d: Device) {
    n < |run| && ((exists op | op in run[n].todo :: IsPersist(op, d))
                  || (exists k | m < k < n :: PersistsAt(run, labels, k, d)))
  }

  lemma ConnectingStep(s: State, l: Label, i: nat)
    requires Invariant(s) && Enabled(s, l) && i < MAX_CONNECTIONS
    requires Next(s, l).table[i].connected && Next(s, l).table[i] != s.table[i]
    ensures l.TakeEvent? && s.events[0].Connected? && s.events[0].slot == i
    ensures Next(s, l).table[i] == C.Connected(s.events[0].device)
    ensures exists op | op in Next(s, l).todo :: IsPersist(op, s.events[0].device)
  {
    match l {
      case TakeRequest =>
      case TakeEvent =>
        var actions := Reduced(s.table, s.events[0]).1;
        assert s.events[0].Connected? && s.events[0].slot == i;
        var persist := Do(actions[0], EpochOf(actions[0], s.epochs));
        assert Next(s, l).todo[0] == persist && IsPersist(persist, s.events[0].device);
      case ExecuteNext =>
      case ScanEnds(_, _) =>
      case Press(_) =>
      case SendRequest =>
      case ShowEvent =>
      case _ =>
    }
  }

  /** A planned PersistDevice is still planned, or was just performed. */
  lemma PersistStays(s: State, l: Label, op: Op, d: Device)
    requires Enabled(s, l) && op in s.todo && IsPersist(op, d)
    ensures op in Next(s, l).todo || (l.ExecuteNext? && s.todo[0] == op)
  {
    assert s.todo[0] == op || op in s.todo[1..];
    match l {
      case TakeRequest =>
      case TakeEvent =>
      case ExecuteNext =>
      case ScanEnds(_, _) =>
      case Press(_) =>
      case SendRequest =>
      case ShowEvent =>
      case _ =>
    }
  }

  lemma HandedOverStays(run: seq<State>, labels: seq<Label>, m: nat, n: nat, d: Device)
    requires |run| == |labels| + 1 && m < n < |labels| && Enabled(run[n], labels[n]) && run[n + 1] == Next(run[n], labels[n])
    requires HandedOver(run, labels, m, n, d)
    ensures HandedOver(run, labels, m, n + 1, d)
  {
    if op :| op in run[n].todo && IsPersist(op, d) {
      PersistStays(run[n], labels[n], op, d);
      if op !in run[n + 1].todo {
        assert PersistsAt(run, labels, n, d);
      }
    } else {
      var k: nat :| m < k < n && PersistsAt(run, labels, k, d);
    }
  }

  /** The connection to `d` at step `m` is the one slot `i` still has at `n`, and `d` was handed over. */
  ghost predicate Behind(run: seq<State>, labels: seq<Label>, m: nat, n: nat, i: nat, d: Device) {
    && m < n < |run| && i < MAX_CONNECTIONS
    && ConnectsAt(run, labels, m, i, d) && HandedOver(run, labels, m, n, d)
    && forall k | m < k <= n :: run[k].table[i] == C.Connected(d)
  }

  lemma BehindBegins(run: seq<State>, labels: seq<Label>, n: nat, i: nat)
    requires |run| == |labels| + 1 && n < |labels| && i < MAX_CONNECTIONS
    requires Invariant(run[n]) && Enabled(run[n], labels[n]) && run[n + 1] == Next(run[n], labels[n])
    requires run[n + 1].table[i].connected && run[n + 1].table[i] != run[n].table[i]
    ensures run[n].events != [] && run[n].events[0].Connected?
    ensures Behind(run, labels, n, n + 1, i, run[n].events[0].device)
  {
    ConnectingStep(run[n], labels[n], i);
  }

  lemma BehindStays(run: seq<State>, labels: seq<Label>, m: nat, n: nat, i: nat, d: Device)
    requires |run| == |labels| + 1 && n < |labels|
    requires Enabled(run[n], labels[n]) && run[n + 1] == Next(run[n], labels[n])
    requires Behind(run, labels, m, n, i, d) && run[n + 1].table[i] == run[n].table[i]
    ensures Behind(run, labels, m, n + 1, i, d)
  {
    HandedOverStays(run, labels, m, n, d);
  }

  /**
   Behind every connected slot stands the event that connected it; the slot has not changed
   since, and its device has been persisted since or is about to be.
   */
  lemma {:induction false} ConnectedIsHandedOver(peers: seq<Device>, run: seq<State>, labels: seq<Label>, n: nat, i: nat)
    returns (m: nat, d: Device)
    requires IsRun(peers, run, labels) && n < |run| && i < MAX_CONNECTIONS && run[n].table[i].connected
    ensures Behind(run, labels, m, n, i, d)
  {
    RunKeepsInvariant(peers, run, labels, n - 1);
    if run[n].table[i] != run[n - 1].table[i] {
      BehindBegins(run, labels, n - 1, i);
      m, d := n - 1, run[n - 1].events[0].device;
    } else {
      m, d := ConnectedIsHandedOver(peers, run, labels, n - 1, i);
      BehindStays(run, labels, m, n - 1, i, d);
    }
  }
}
