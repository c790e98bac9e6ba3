/** No peer is held twice: addresses of slots, of boot reservations and of live workers over every run. */
module Addresses {
  import opened Types
  import opened Scanner
  import opened Reconnect
  import opened Protocol
  import opened SlotInvariant
  import opened SlotRuns
  import C = Coordinator

  /** The devices that boot has decided on and not yet reserved, in order. */
  function Reserving(todo: seq<Op>): seq<Device> {
    if todo == [] then []
    else if todo[0].BootReserve? then [todo[0].device] + Reserving(todo[1..])
    else Reserving(todo[1..])
  }

  ghost predicate TableApart(t: C.Table) {
    C.IsOccupied(t[0]) && C.IsOccupied(t[1]) ==> t[0].address != t[1].address
  }

  /** No two claims, reserved or decided on, share an address. */
  ghost predicate ClaimsApart(t: C.Table, ds: seq<Device>) {
    TableApart(t) && DistinctDevices(ds) && forall d | d in ds :: !C.AddressInUse(t, d.address)
  }

  ghost predicate Apart(s: State) {
    ClaimsApart(s.table, Reserving(s.todo))
  }

  /** The step ends boot's scan with the one outcome on which the planner picks an address twice. */
  ghost predicate IsClash(s: State, l: Label) {
    && l.ScanEnds? && s.todo != [] && s.todo[0].BootScan? && |s.todo[0].peers| == 2
    && BootClash(s.todo[0].peers, Remembered(l.result), l.resolved)
  }

  // ─── Operations and reservations ───────────────────────────────────────────

  lemma {:induction false} ReservingConcat(a: seq<Op>, b: seq<Op>)
    ensures Reserving(a + b) == Reserving(a) + Reserving(b)
  {
    if a == [] {
      assert a + b == b;
    } else {
      assert (a + b)[0] == a[0] && (a + b)[1..] == a[1..] + b;
      ReservingConcat(a[1..], b);
    }
  }

  lemma {:induction false} NoneReserving(ops: seq<Op>)
    requires forall op | op in ops :: !op.BootReserve?
    ensures Reserving(ops) == []
  {
    if ops != [] {
      assert ops[0] in ops;
      NoneReserving(ops[1..]);
    }
  }

  lemma {:induction false} BootedReservesNothing(ops: seq<Op>)
    requires AllSound(ops) && Unbooted(ops, 0) == 0 && Unbooted(ops, 1) == 0
    ensures forall op | op in ops :: !op.BootReserve? && !op.BootScan?
  {
    if ops != [] {
      assert IsSound(ops[0]);
      BootedReservesNothing(ops[1..]);
    }
  }

  lemma {:induction false} StampedDo(actions: seq<C.Action>, epochs: seq<nat>)
    ensures forall op | op in Stamped(actions, epochs) :: op.Do?
  {
    if actions != [] {
      StampedDo(actions[1..], epochs);
    }
  }

  lemma ReservingOne(i: nat, d: Device)
    ensures Reserving([BootReserve(i, d)]) == [d]
  {
    assert [BootReserve(i, d)][1..] == [];
  }

  lemma {:induction false} ReservesReserve(devices: seq<Device>, k: nat)
    requires k <= |devices|
    ensures Reserving(Reserves(devices, k)) == devices[k..]
    ensures forall op | op in Reserves(devices, k) :: op.BootReserve?
    decreases |devices| - k
  {
    if k < |devices| {
      var tail := Reserves(devices, k + 1);
      ReservesReserve(devices, k + 1);
      assert Reserves(devices, k) == [BootReserve(k, devices[k])] + tail;
      ReservingConcat([BootReserve(k, devices[k])], tail);
      assert devices[k..] == [devices[k]] + devices[k + 1..];
      ReservingOne(k, devices[k]);
    }
  }

  lemma ReservesAmong(before: seq<Op>, devices: seq<Device>, after: seq<Op>)
    requires forall op | op in before + after :: IsQuiet(op)
    ensures var ops := before + Reserves(devices, 0) + after;
            Reserving(ops) == devices && forall op | op in ops :: !op.BootScan?
    ensures Reserving(before + [] + after) == [] && forall op | op in before + [] + after :: !op.BootScan?
  {
    assert forall op | op in before || op in after :: op in before + after;
    NoneReserving(before);
    NoneReserving(after);
    NoneReserving(before + [] + after);
    ReservingConcat(before + Reserves(devices, 0), after);
    ReservingConcat(before, Reserves(devices, 0));
    ReservesReserve(devices, 0);
  }

  lemma AfterScanReserves(op: Op, result: Option<seq<Device>>, resolved: set<(int, int)>)
    requires op.Scan? || op.BootScan?
    ensures Reserving(AfterScan(op, result, resolved))
            == if op.BootScan? then BootDevices(op.peers, Remembered(result), resolved) else []
    ensures forall o | o in AfterScan(op, result, resolved) :: !o.BootScan?
  {
    var ds := if op.BootScan? then BootDevices(op.peers, Remembered(result), resolved) else [];
    ReportIsQuiet(result);
    ReservesAmong(ScanReport(result), ds, [Remember(Remembered(result))]);
  }

  // ─── Steps ─────────────────────────────────────────────────────────────────

  /** A pending boot scan is that of the stored peers. */
  ghost predicate BootsWith(peers: seq<Device>, s: State) {
    forall op | op in s.todo :: op.BootScan? ==> op.peers == peers
  }

  lemma RequestKeepsApart(s: State)
    requires s.todo == [] && s.requests != [] && TableApart(s.table)
    ensures Apart(OnRequest(s)) && forall op | op in OnRequest(s).todo :: !op.BootScan?
  {
    var s' := OnRequest(s);
    assert forall op | op in s'.todo :: op.Do? || op.Publish? || op.Scan? by {
      match s.requests[0].command {
        case StartScan => StampedDo(C.PlanStartScan(s.table), s.epochs);
        case Connect(index) =>
          var (_, actions) := C.PlanConnect(s.table, s.lastScan, index);
          StampedDo(actions, s'.epochs);
        case Disconnect => StampedDo(C.PlanDisconnect(s.table), s.epochs);
      }
    }
    NoneReserving(s'.todo);
  }

  lemma EventKeepsApart(s: State)
    requires Invariant(s) && Enabled(s, TakeEvent) && TableApart(s.table)
    ensures Apart(OnEvent(s)) && forall op | op in OnEvent(s).todo :: !op.BootScan?
  {
    var e := s.events[0];
    StampedDo(Reduced(s.table, e).1, s.epochs);
    NoneReserving(OnEvent(s).todo);
    var v := ViewOf(s, e.slot);
    assert LocalInvariant(e.slot, v) && v.events[0] == e;
    if e.Connected? && v.worker.phase.Idle? {
      var d :| ReportedFor(e.slot, v.slot, v.events, d);
    }
    assert e.Connected? ==> s.table[e.slot] == C.Connecting(e.device);
  }

  lemma ExecuteKeepsApart(s: State)
    requires Invariant(s) && Enabled(s, ExecuteNext) && Apart(s)
    ensures Apart(Execute(s)) && forall op | op in Execute(s).todo :: op.Do? || op in s.todo
  {
    var op, rest := s.todo[0], s.todo[1..];
    if op.BootReserve? {
      var i, d := op.slot, op.device;
      assert Execute(s).todo[1..] == rest;
      assert Reserving(s.todo) == [d] + Reserving(rest);
      assert LocalInvariant(i, ViewOf(s, i)) && Unbooted(s.todo, i) > 0;
      ReserveKeepsApart(s.table, d, Reserving(rest), i);
    }
  }

  lemma TailDistinct(d: Device, ds: seq<Device>)
    requires DistinctDevices([d] + ds)
    ensures DistinctDevices(ds) && forall e | e in ds :: e.address != d.address
  {
    var all := [d] + ds;
    assert all[0] == d && forall k | 0 <= k < |ds| :: all[k + 1] == ds[k];
    forall k, l | 0 <= k < l < |ds|
      ensures ds[k].address != ds[l].address
    {
      assert all[k + 1].address != all[l + 1].address;
    }
    forall e | e in ds
      ensures e.address != d.address
    {
      var k: nat :| k < |ds| && ds[k] == e;
      assert all[0].address != all[k + 1].address;
    }
  }

  lemma ReserveKeepsApart(t: C.Table, d: Device, ds: seq<Device>, i: nat)
    requires ClaimsApart(t, [d] + ds) && i < MAX_CONNECTIONS && !C.IsOccupied(t[i])
    ensures ClaimsApart(t[i := C.Connecting(d)], ds)
  {
    TailDistinct(d, ds);
    assert !C.AddressInUse(t, d.address);
    assert forall e | e in ds :: e in [d] + ds;
  }

  /** While boot scans, every slot is free and nothing else of boot is planned. */
  lemma BeforeBoot(s: State)
    requires Invariant(s) && s.todo != [] && s.todo[0].BootScan?
    ensures IsSound(s.todo[0]) && s.table == [C.FREE, C.FREE]
    ensures Reserving(s.todo[1..]) == [] && forall op | op in s.todo[1..] :: !op.BootScan?
  {
    var rest := s.todo[1..];
    assert s.todo[0] in s.todo && forall op | op in rest :: op in s.todo;
    assert LocalInvariant(0, ViewOf(s, 0)) && LocalInvariant(1, ViewOf(s, 1));
    BootedReservesNothing(rest);
    NoneReserving(rest);
  }

  lemma BootScanKeepsApart(peers: seq<Device>, s: State, l: Label)
    requires Invariant(s) && l.ScanEnds? && Enabled(s, l) && s.todo[0] == BootScan(peers)
    requires DistinctDevices(peers)
    ensures Apart(Next(s, l)) <==> !IsClash(s, l)
    ensures BootsWith(peers, Next(s, l))
  {
    var scanned := Remembered(l.result);
    BeforeBoot(s);
    AfterScanReserves(s.todo[0], l.result, l.resolved);
    ReservingConcat(AfterScan(s.todo[0], l.result, l.resolved), s.todo[1..]);
    assert Reserving(Next(s, l).todo) == BootDevices(peers, scanned, l.resolved);
    if |peers| == 2 {
      BootCollidesIff(peers, scanned, l.resolved);
    }
  }

  lemma ScanKeepsApart(peers: seq<Device>, s: State, l: Label)
    requires Enabled(s, l) && l.ScanEnds? && s.todo[0].Scan? && Apart(s) && BootsWith(peers, s)
    ensures Apart(Next(s, l))
    ensures BootsWith(peers, Next(s, l))
  {
    AfterScanReserves(s.todo[0], l.result, l.resolved);
    ReservingConcat(AfterScan(s.todo[0], l.result, l.resolved), s.todo[1..]);
    assert Reserving(Next(s, l).todo) == Reserving(s.todo);
  }

  lemma StepKeepsApart(peers: seq<Device>, s: State, l: Label)
    requires Invariant(s) && Enabled(s, l) && Apart(s) && BootsWith(peers, s) && DistinctDevices(peers)
    ensures Apart(Next(s, l)) <==> !IsClash(s, l)
    ensures BootsWith(peers, Next(s, l))
  {
    match l {
      case TakeRequest => RequestKeepsApart(s);
      case TakeEvent => EventKeepsApart(s);
      case ExecuteNext => ExecuteKeepsApart(s);
      case ScanEnds(_, _) =>
        assert s.todo[0] in s.todo;
        if s.todo[0].Scan? {
          ScanKeepsApart(peers, s, l);
        } else {
          BootScanKeepsApart(peers, s, l);
        }
      case _ => assert Next(s, l).todo == s.todo && Next(s, l).table == s.table;
    }
  }

  // ─── Runs ──────────────────────────────────────────────────────────────────

  lemma InitialApart(peers: seq<Device>)
    requires |peers| <= MAX_CONNECTIONS
    ensures Apart(Initial(peers)) && BootsWith(peers, Initial(peers))
  {
    NoneReserving(Initial(peers).todo);
  }

  lemma {:induction false} PrefixApart(peers: seq<Device>, run: seq<State>, labels: seq<Label>, n: nat)
    requires IsRun(peers, run, labels) && DistinctDevices(peers) && n < |run|
    requires forall k | 0 <= k < n :: !IsClash(run[k], labels[k])
    ensures Apart(run[n]) && BootsWith(peers, run[n])
  {
    if n == 0 {
      InitialApart(peers);
    } else {
      PrefixApart(peers, run, labels, n - 1);
      RunKeepsInvariant(peers, run, labels, n - 1);
      StepKeepsApart(peers, run[n - 1], labels[n - 1]);
    }
  }

  /**
   With distinct stored peers, no address is ever claimed twice in a run exactly if its boot
   scan is no clash: everything after boot keeps addresses apart unconditionally.
   */
  lemma ApartUnlessBootClashes(peers: seq<Device>, run: seq<State>, labels: seq<Label>)
    requires IsRun(peers, run, labels) && DistinctDevices(peers)
    ensures (forall n | 0 <= n < |run| :: Apart(run[n])) <==> (forall n | 0 <= n < |labels| :: !IsClash(run[n], labels[n]))
  {
    if n: nat :| n < |labels| && IsClash(run[n], labels[n]) && forall k | 0 <= k < n :: !IsClash(run[k], labels[k]) {
      PrefixApart(peers, run, labels, n);
      RunKeepsInvariant(peers, run, labels, n);
      StepKeepsApart(peers, run[n], labels[n]);
      assert !Apart(run[n + 1]);
    } else {
      NoFirstClash(run, labels, |labels|);
      forall n: nat | n < |run| {
        PrefixApart(peers, run, labels, n);
      }
    }
  }

  lemma {:induction false} NoFirstClash(run: seq<State>, labels: seq<Label>, m: nat)
    requires |run| == |labels| + 1 && m <= |labels|
    requires forall n: nat | n < |labels| && (forall k | 0 <= k < n :: !IsClash(run[k], labels[k])) :: !IsClash(run[n], labels[n])
    ensures forall n | 0 <= n < m :: !IsClash(run[n], labels[n])
  {
    if m > 0 {
      NoFirstClash(run, labels, m - 1);
    }
  }

  /** A worker that is not idle works for the device its slot holds. */
  lemma BusyWorkerHoldsSlot(i: nat, s: State)
    requires Invariant(s) && i < MAX_CONNECTIONS && !s.workers[i].phase.Idle?
    ensures C.IsOccupied(s.table[i]) && s.table[i].address == Some(s.workers[i].phase.device.address)
  {
    assert LocalInvariant(i, ViewOf(s, i));
  }

  /** No two occupied slots and no two busy workers ever hold the same peer address. */
  lemma NoPeerHeldTwice(peers: seq<Device>, run: seq<State>, labels: seq<Label>, n: nat)
    requires IsRun(peers, run, labels) && DistinctDevices(peers) && n < |run|
    requires forall k | 0 <= k < n :: !IsClash(run[k], labels[k])
    ensures C.IsOccupied(run[n].table[0]) && C.IsOccupied(run[n].table[1]) ==>
              run[n].table[0].address != run[n].table[1].address
    ensures |run[n].workers| == MAX_CONNECTIONS
    ensures var w := run[n].workers;
            !w[0].phase.Idle? && !w[1].phase.Idle? ==> w[0].phase.device.address != w[1].phase.device.address
  {
    PrefixApart(peers, run, labels, n);
    RunKeepsInvariant(peers, run, labels, n);
    var w := run[n].workers;
    if !w[0].phase.Idle? && !w[1].phase.Idle? {
      BusyWorkerHoldsSlot(0, run[n]);
      BusyWorkerHoldsSlot(1, run[n]);
    }
  }
}
