/** Collecting the devices of one scan. */
module Scanner {
  import opened Types
  import opened Utf8
  import opened Advertising

  const BLE_MAX_DISCOVERED: nat := 8

  /** `DeviceInfo`, the identity that the coordinator handles. */
  datatype Device = Device(address: Address, name: Name, rssi: i8)

  /** One advertisement as the scan callback receives it. */
  datatype Advert = Advert(address: Address, data: seq<u8>, rssi: i8)

  ghost predicate IsHid(a: Advert) {
    AnyHid(StructuresFrom(a.data, 0))
  }

  predicate Listed(found: seq<Device>, address: Address) {
    exists d | d in found :: d.address == address
  }

  ghost predicate DistinctDevices(ds: seq<Device>) {
    forall i, j | 0 <= i < j < |ds| :: ds[i].address != ds[j].address
  }

  /** The address was first announced by a HID advertisement at index `i`. */
  ghost predicate FirstSeen(adverts: seq<Advert>, i: nat, address: Address) {
    && i < |adverts| && IsHid(adverts[i]) && adverts[i].address == address
    && forall j | 0 <= j < i :: IsHid(adverts[j]) ==> adverts[j].address != address
  }

  ghost predicate IsDeviceOf(d: Device, a: Advert) {
    d.address == a.address && d.rssi == a.rssi && IsNameOf(d.name, StructuresFrom(a.data, 0))
  }

  /** `found` lists, by first appearance, HID devices of the adverts; `at` tells where. */
  ghost predicate Lists(found: seq<Device>, adverts: seq<Advert>, at: seq<nat>) {
    && |at| == |found|
    && (forall k | 0 <= k < |found| ::
          FirstSeen(adverts, at[k], found[k].address) && IsDeviceOf(found[k], adverts[at[k]]))
    && forall k, l | 0 <= k < l < |at| :: at[k] < at[l]
  }

  /** Every HID advert before index `n` is listed under its address. */
  ghost predicate Covers(found: seq<Device>, adverts: seq<Advert>, n: nat)
    requires n <= |adverts|
  {
    forall j | 0 <= j < n && IsHid(adverts[j]) :: Listed(found, adverts[j].address)
  }

  lemma ListedAppend(found: seq<Device>, d: Device, address: Address)
    ensures Listed(found + [d], address) <==> Listed(found, address) || d.address == address
  {
    assert (found + [d])[|found|] == d;
    assert forall e | e in found :: e in found + [d];
  }

  lemma AppendListed(found: seq<Device>, adverts: seq<Advert>, at: seq<nat>, i: nat, d: Device)
    requires i < |adverts| && Lists(found, adverts, at) && Covers(found, adverts, i)
    requires forall k | 0 <= k < |at| :: at[k] < i
    requires IsHid(adverts[i]) && IsDeviceOf(d, adverts[i]) && !Listed(found, d.address)
    requires DistinctDevices(found)
    ensures Lists(found + [d], adverts, at + [i]) && DistinctDevices(found + [d])
    ensures Covers(found + [d], adverts, i + 1)
  {
    assert FirstSeen(adverts, i, d.address);
    forall j | 0 <= j <= i && IsHid(adverts[j])
      ensures Listed(found + [d], adverts[j].address)
    {
      ListedAppend(found, d, adverts[j].address);
    }
  }

  /**
   The scan callback over the advertisements received before the window closes: at most
   eight HID devices, pairwise distinct, in order of first appearance; a list that is not
   full misses none.
   */
  method Scan(adverts: seq<Advert>) returns (found: seq<Device>)
    ensures |found| <= BLE_MAX_DISCOVERED && DistinctDevices(found)
    ensures exists at :: Lists(found, adverts, at)
    ensures |found| < BLE_MAX_DISCOVERED ==> Covers(found, adverts, |adverts|)
  {
    found := [];
    ghost var at: seq<nat> := [];
    for i := 0 to |adverts|
      invariant |found| < BLE_MAX_DISCOVERED && DistinctDevices(found)
      invariant Lists(found, adverts, at) && Covers(found, adverts, i)
      invariant forall k | 0 <= k < |at| :: at[k] < i
    {
      var hasHidService := ContainsHidServiceUuid(adverts[i].data);
      if hasHidService {
        var name := ExtractDeviceName(adverts[i].data);
        var device := Device(adverts[i].address, name, adverts[i].rssi);
        var alreadySeen := Listed(found, device.address);
        if !alreadySeen && |found| < BLE_MAX_DISCOVERED {
          AppendListed(found, adverts, at, i, device);
          found, at := found + [device], at + [i];
        }
      }
      if |found| == BLE_MAX_DISCOVERED {
        return;
      }
    }
  }
}
