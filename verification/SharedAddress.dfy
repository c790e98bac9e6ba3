/** A clashing boot scan does end with two slots reserved for one address. */
module SharedAddress {
  import opened Types
  import opened Scanner
  import opened Reconnect
  import opened Protocol
  import opened SlotRuns
  import opened Traces
  import opened UiRuns
  import opened Continuations
  import C = Coordinator

  /** Both slots are occupied, under one address. */
  predicate SharesAddress(s: State) {
    C.IsOccupied(s.table[0]) && C.IsOccupied(s.table[1]) && s.table[0].address == s.table[1].address
  }

  lemma {:induction false} TableAfterConcat(t: C.Table, a: seq<Op>, b: seq<Op>)
    ensures TableAfter(t, a + b) == TableAfter(TableAfter(t, a), b)
    decreases |a|
  {
    if a == [] {
      assert a + b == b;
    } else {
      assert (a + b)[0] == a[0] && (a + b)[1..] == a[1..] + b;
      TableAfterConcat(if a[0].BootReserve? then C.SetSlot(t, a[0].slot, C.Connecting(a[0].device)) else t, a[1..], b);
    }
  }

  lemma {:induction false} TableUntouched(t: C.Table, ops: seq<Op>)
    requires forall op | op in ops :: !op.BootReserve?
    ensures TableAfter(t, ops) == t
    decreases |ops|
  {
    if ops != [] {
      assert ops[0] in ops;
      TableUntouched(t, ops[1..]);
    }
  }

  lemma ReservesBoth(t: C.Table, d: Device, e: Device)
    ensures TableAfter(t, Reserves([d, e], 0)) == [C.Connecting(d), C.Connecting(e)]
  {
    var second := [BootReserve(1, e)];
    assert Reserves([d, e], 2) == [] && Reserves([d, e], 1) == second + [];
    var both := [BootReserve(0, d)] + second;
    assert Reserves([d, e], 0) == both && both[1..] == second && second[1..] == [];
    var t1 := C.SetSlot(t, 0, C.Connecting(d));
    assert TableAfter(t1, second) == TableAfter(C.SetSlot(t1, 1, C.Connecting(e)), []);
  }

  /** The work after boot's scan reserves both slots. */
  lemma BootTable(t: C.Table, op: Op, result: Option<seq<Device>>, resolved: set<(int, int)>)
    requires op.BootScan? && |op.peers| == 2
    ensures var ds := BootDevices(op.peers, Remembered(result), resolved);
            |ds| == 2 && TableAfter(t, AfterScan(op, result, resolved)) == [C.Connecting(ds[0]), C.Connecting(ds[1])]
  {
    var ds := BootDevices(op.peers, Remembered(result), resolved);
    var report, last := ScanReport(result), [Remember(Remembered(result))];
    var reserves := Reserves(ds, 0);
    ReportIsQuiet(result);
    TableUntouched(t, report);
    assert ds == [ds[0], ds[1]];
    ReservesBoth(t, ds[0], ds[1]);
    TableAfterConcat(t, report + reserves, last);
    TableAfterConcat(t, report, reserves);
    TableUntouched([C.Connecting(ds[0]), C.Connecting(ds[1])], last);
  }

  /** Boot up to the end of its scan. */
  lemma BootScanEnds(a: Device, b: Device, result: Option<seq<Device>>, resolved: set<(int, int)>) returns (t: State)
    requires IsScanResult(result)
    ensures Reaches(Initial([a, b]), t) && Good(t) && UiFree(t)
    ensures t.todo == AfterScan(BootScan([a, b]), result, resolved)
  {
    var s := Initial([a, b]);
    InitialInvariant([a, b]);
    InitialAgrees([a, b]);
    ReachesStep(s, ExecuteNext);
    StepKeepsGood(s, ExecuteNext);
    var s1, l := Next(s, ExecuteNext), ScanEnds(result, resolved);
    assert s1.todo == [BootScan([a, b])] && s1.todo[1..] == [];
    Then(s, s1, l);
    StepKeepsGood(s1, l);
    t := Next(s1, l);
    assert t.todo == AfterScan(BootScan([a, b]), result, resolved);
  }

  /** After the reservations of a clashing scan both slots have one address. */
  lemma ClashTable(t: C.Table, a: Device, b: Device, found: seq<Device>, resolved: set<(int, int)>)
    requires a.address != b.address && IsScanResult(Some(found)) && BootClash([a, b], found, resolved)
    ensures var after := TableAfter(t, AfterScan(BootScan([a, b]), Some(found), resolved));
            C.IsOccupied(after[0]) && C.IsOccupied(after[1]) && after[0].address == after[1].address
  {
    BootTable(t, BootScan([a, b]), Some(found), resolved);
    BootCollidesIff([a, b], found, resolved);
  }

  /** Whatever the clashing scan, some run from boot ends with both slots held by one address. */
  lemma ClashSharesAddress(a: Device, b: Device, found: seq<Device>, resolved: set<(int, int)>)
    requires a.address != b.address && IsScanResult(Some(found)) && BootClash([a, b], found, resolved)
    ensures exists run, labels :: IsRun([a, b], run, labels) && SharesAddress(run[|labels|])
  {
    AfterScanUpcoming(BootScan([a, b]), Some(found), resolved);
    var s := BootScanEnds(a, b, Some(found), resolved);
    var t := FinishesPlain(s);
    ClashTable(s.table, a, b, found, resolved);
    assert SharesAddress(t) && Reaches(s, t);
    ReachesTwo(Initial([a, b]), s, t);
    ReachedByRun([a, b], t);
  }

  /** One advertisement is enough: resolved to the first peer, at the stored address of the second. */
  lemma AddressCanBeShared(a: Device, b: Device, rssi: i8)
    requires a.address != b.address
    ensures exists run, labels :: IsRun([a, b], run, labels) && SharesAddress(run[|labels|])
  {
    var found := [Device(b.address, "", rssi)];
    assert IsPeer([a, b], found, {(0, 0)}, 0, 0) && found[0].address == b.address;
    ClashSharesAddress(a, b, found, {(0, 0)});
  }
}
