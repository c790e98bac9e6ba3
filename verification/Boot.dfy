/** From the pairing store to the slots: the peers that boot reconnects, and what they guarantee. */
module Boot {
  import opened Codec
  import opened Store
  import opened Scanner
  import opened Reconnect
  import opened Protocol
  import opened Addresses
  import C = Coordinator

  function PeerOf(d: PairedDevice): Device {
    Device(d.address, d.name, d.lastRssi)
  }

  /** `iter_recent().take(..)`: the last entries of the store, last first, one per slot. */
  function Peers(devices: seq<PairedDevice>): (peers: seq<Device>)
    ensures |peers| <= MAX_CONNECTIONS
  {
    seq(Min(|devices|, MAX_CONNECTIONS), k requires 0 <= k < |devices| => PeerOf(devices[|devices| - 1 - k]))
  }

  /** Peer `k` of boot is the `k`-th stored device from the end: address, name and last signal. */
  lemma PeersMeaning(devices: seq<PairedDevice>, k: nat)
    ensures |Peers(devices)| == if |devices| < 2 then |devices| else 2
    ensures k < |Peers(devices)| ==>
              var p, d := Peers(devices)[k], devices[|devices| - 1 - k];
              p.address == d.address && p.name == d.name && p.rssi == d.lastRssi
  {
    if k < |Peers(devices)| {
      assert Peers(devices)[k] == PeerOf(devices[|devices| - 1 - k]);
    }
  }

  method RecentPeers(devices: seq<PairedDevice>) returns (peers: seq<Device>)
    ensures peers == Peers(devices)
  {
    peers := [];
    var i := |devices|;
    while i > 0 && |peers| < MAX_CONNECTIONS
      invariant 0 <= i <= |devices| && |peers| == |devices| - i <= MAX_CONNECTIONS
      invariant forall k | 0 <= k < |peers| :: peers[k] == PeerOf(devices[|devices| - 1 - k])
    {
      i := i - 1;
      peers := peers + [PeerOf(devices[i])];
    }
  }

  lemma PeersAreDistinct(devices: seq<PairedDevice>)
    requires DistinctAddresses(devices)
    ensures DistinctDevices(Peers(devices))
  {
    var peers, n := Peers(devices), |devices|;
    forall i, j | 0 <= i < j < |peers|
      ensures peers[i].address != peers[j].address
    {
      assert peers[i] == PeerOf(devices[n - 1 - i]) && peers[j] == PeerOf(devices[n - 1 - j]);
    }
  }

  /**
   From store to slots: slot `k` is reserved for the `k`-th stored device from the end, under its
   stored name; if no scan result is left for it, at its stored address with its last signal.
   */
  lemma StoredDeviceIsReserved(devices: seq<PairedDevice>, scanned: seq<Device>, resolved: set<(int, int)>, k: nat)
    requires k < |devices| && k < 2 && |scanned| <= CLAIM_BITS
    ensures var peers := Peers(devices);
            var ds, d := BootDevices(peers, scanned, resolved), devices[|devices| - 1 - k];
            && |ds| == |peers| && k < |ds| && ds[k].name == d.name
            && ((forall s: nat :: !IsPeer(peers, scanned, resolved, k, s)) ==>
                  ds[k].address == d.address && ds[k].rssi == d.lastRssi)
  {
    PeersMeaning(devices, k);
    BootDevicesMeaning(Peers(devices), scanned, resolved, k);
  }

  /** However the store was used before, the peers of boot have distinct addresses. */
  lemma StoredPeersAreDistinct(w: World, ops: seq<Operation>)
    requires |w.cache.devices| <= MAX_PAIRED_DEVICES && Distinct(w)
    ensures DistinctDevices(Peers(Run(w, ops).cache.devices))
  {
    AddressesStayDistinct(w, ops);
    PeersAreDistinct(Run(w, ops).cache.devices);
  }

  /**
   From store to radio: in any run that boots from a store with distinct addresses, whose boot
   scan is no clash, no two slots and no two workers hold the same peer address.
   */
  lemma StoredPeersAreHeldOnce(
    w: World, ops: seq<Operation>, run: seq<State>, labels: seq<Label>, n: nat)
    requires |w.cache.devices| <= MAX_PAIRED_DEVICES && Distinct(w)
    requires IsRun(Peers(Run(w, ops).cache.devices), run, labels) && n < |run|
    requires forall k | 0 <= k < n :: !IsClash(run[k], labels[k])
    ensures C.IsOccupied(run[n].table[0]) && C.IsOccupied(run[n].table[1]) ==>
              run[n].table[0].address != run[n].table[1].address
    ensures |run[n].workers| == MAX_CONNECTIONS
    ensures var w := run[n].workers;
            !w[0].phase.Idle? && !w[1].phase.Idle? ==> w[0].phase.device.address != w[1].phase.device.address
  {
    StoredPeersAreDistinct(w, ops);
    NoPeerHeldTwice(Peers(Run(w, ops).cache.devices), run, labels, n);
  }
}
