/** The slot invariant over every run of the whole system, and what follows from it. */
module SlotRuns {
  import opened Types
  import opened Scanner
  import opened Reconnect
  import opened Protocol
  import opened SlotInvariant
  import C = Coordinator
  import U = Ui

  // ─── Projections of concatenations ─────────────────────────────────────────

  lemma {:induction false} PlannedConcat(a: seq<Op>, b: seq<Op>, i: nat)
    ensures Planned(a + b, i) == Planned(a, i) + Planned(b, i)
    ensures Unbooted(a + b, i) == Unbooted(a, i) + Unbooted(b, i)
  {
    if a == [] {
      assert a + b == b;
    } else {
      assert (a + b)[0] == a[0] && (a + b)[1..] == a[1..] + b;
      PlannedConcat(a[1..], b, i);
    }
  }

  lemma {:induction false} EventsAppend(events: seq<SlotEvent>, e: SlotEvent, i: nat)
    ensures EventsOf(events + [e], i) == if e.slot == i then EventsOf(events, i) + [e] else EventsOf(events, i)
  {
    var longer := events + [e];
    if events == [] {
      assert longer == [e];
    } else {
      assert longer[0] == events[0] && longer[1..] == events[1..] + [e];
      EventsAppend(events[1..], e, i);
    }
  }

  /** An operation that concerns no slot. */
  predicate IsQuiet(op: Op) {
    match op
    case Do(DisconnectSlot(_), _) => false
    case Do(ConnectSlot(_, _), _) => false
    case BootScan(_) => false
    case BootReserve(_, _) => false
    case _ => true
  }

  lemma {:induction false} QuietOps(ops: seq<Op>, i: nat)
    requires forall op | op in ops :: IsQuiet(op)
    ensures Planned(ops, i) == [] && Unbooted(ops, i) == 0
  {
    if ops != [] {
      assert ops[0] in ops;
      QuietOps(ops[1..], i);
    }
  }

  predicate IsQuietAction(a: C.Action) {
    a.PersistDevice? || a.Emit?
  }

  lemma {:induction false} QuietActions(actions: seq<C.Action>, epochs: seq<nat>)
    requires forall a | a in actions :: IsQuietAction(a)
    ensures forall op | op in Stamped(actions, epochs) :: IsQuiet(op)
  {
    if actions != [] {
      assert actions[0] in actions;
      QuietActions(actions[1..], epochs);
    }
  }

  lemma StampedCons(a: C.Action, rest: seq<C.Action>, epochs: seq<nat>)
    ensures Stamped([a] + rest, epochs) == [Do(a, EpochOf(a, epochs))] + Stamped(rest, epochs)
  {
    assert ([a] + rest)[1..] == rest;
  }

  lemma StampedOne(a: C.Action, epochs: seq<nat>)
    ensures Stamped([a], epochs) == [Do(a, EpochOf(a, epochs))]
  {
    assert [a] + [] == [a];
    StampedCons(a, [], epochs);
  }

  lemma {:induction false} PlannedDisconnects(t: C.Table, epochs: seq<nat>, k: nat, i: nat)
    requires k <= MAX_CONNECTIONS && i < MAX_CONNECTIONS == |epochs|
    ensures var ops := Stamped(C.DisconnectFrom(t, k), epochs);
            && Planned(ops, i) == (if k <= i && C.IsOccupied(t[i]) then [Disconnect(epochs[i])] else [])
            && Unbooted(ops, i) == 0
    decreases MAX_CONNECTIONS - k
  {
    if k < MAX_CONNECTIONS {
      PlannedDisconnects(t, epochs, k + 1, i);
      var rest := C.DisconnectFrom(t, k + 1);
      if C.IsOccupied(t[k]) {
        StampedCons(C.DisconnectSlot(k), rest, epochs);
      } else {
        assert C.DisconnectFrom(t, k) == rest;
      }
    }
  }

  lemma {:induction false} FoundIsQuiet(devices: seq<Device>)
    ensures forall op | op in Found(devices) :: IsQuiet(op)
  {
    if devices != [] {
      FoundIsQuiet(devices[1..]);
    }
  }

  lemma ReportIsQuiet(result: Option<seq<Device>>)
    ensures forall op | op in ScanReport(result) :: IsQuiet(op)
  {
    FoundIsQuiet(Remembered(result));
  }

  lemma {:induction false} ReservesCounted(devices: seq<Device>, k: nat, i: nat)
    requires |devices| <= MAX_CONNECTIONS
    ensures Planned(Reserves(devices, k), i) == [] && Unbooted(Reserves(devices, k), i) <= 1
    ensures i < k ==> Unbooted(Reserves(devices, k), i) == 0
    ensures forall op | op in Reserves(devices, k) :: IsSound(op)
    decreases |devices| - k
  {
    if k < |devices| {
      ReservesCounted(devices, k + 1, i);
    }
  }

  // ─── Bounds ────────────────────────────────────────────────────────────────

  /** Slot numbers stay within the table. */
  predicate IsSound(op: Op) {
    match op
    case Do(DisconnectSlot(i), _) => i < MAX_CONNECTIONS
    case Do(ConnectSlot(i, _), _) => i < MAX_CONNECTIONS
    case BootReserve(i, _) => i < MAX_CONNECTIONS
    case BootScan(peers) => |peers| <= MAX_CONNECTIONS
    case _ => true
  }

  ghost predicate AllSound(ops: seq<Op>) {
    forall op | op in ops :: IsSound(op)
  }

  ghost predicate WithinBounds(s: State) {
    && |s.epochs| == |s.commands| == |s.workers| == MAX_CONNECTIONS
    && AllSound(s.todo)
    && (forall e | e in s.events :: e.slot < MAX_CONNECTIONS)
    && (forall i | 0 <= i < MAX_CONNECTIONS :: |s.commands[i]| <= SLOT_COMMANDS)
    && |s.requests| <= UI_REQUESTS && |s.published| <= UI_EVENTS
  }

  lemma {:induction false} SoundDisconnects(t: C.Table, epochs: seq<nat>, k: nat)
    requires k <= MAX_CONNECTIONS == |epochs|
    ensures AllSound(Stamped(C.DisconnectFrom(t, k), epochs))
    decreases MAX_CONNECTIONS - k
  {
    if k < MAX_CONNECTIONS {
      SoundDisconnects(t, epochs, k + 1);
      var rest := C.DisconnectFrom(t, k + 1);
      if C.IsOccupied(t[k]) {
        StampedCons(C.DisconnectSlot(k), rest, epochs);
      } else {
        assert C.DisconnectFrom(t, k) == rest;
      }
    }
  }

  /** A Connect request yields one action at most, and only a reservation names a slot. */
  lemma ConnectOutcome(t: C.Table, devices: seq<Device>, index: nat, epochs: seq<nat>)
    ensures var actions := C.PlanConnect(t, devices, index).1;
            || (actions == [] && Stamped(actions, epochs) == [])
            || (&& |actions| == 1 && (actions[0].Emit? || (actions[0].ConnectSlot? && actions[0].slot < MAX_CONNECTIONS))
                && Stamped(actions, epochs) == [Do(actions[0], EpochOf(actions[0], epochs))])
  {
    var actions := C.PlanConnect(t, devices, index).1;
    if actions != [] {
      StampedOne(actions[0], epochs);
      assert actions == [actions[0]];
    }
  }

  lemma RequestSound(s: State)
    requires WithinBounds(s) && s.todo == [] && s.requests != []
    ensures AllSound(OnRequest(s).todo)
  {
    match s.requests[0].command {
      case StartScan =>
        var ops, tail := Stamped(C.PlanStartScan(s.table), s.epochs), [Publish(U.ScanStarted), Scan];
        SoundDisconnects(s.table, s.epochs, 0);
        assert AllSound(ops) && AllSound(tail) && OnRequest(s).todo == ops + tail;
      case Connect(index) =>
        var (table, actions) := C.PlanConnect(s.table, s.lastScan, index);
        ConnectOutcome(s.table, s.lastScan, index, Bumped(s.epochs, actions));
      case Disconnect =>
        SoundDisconnects(s.table, s.epochs, 0);
    }
  }

  lemma RequestBounds(s: State)
    requires WithinBounds(s) && s.todo == [] && s.requests != []
    ensures WithinBounds(OnRequest(s))
  {
    RequestSound(s);
  }

  lemma ScanEndsBounds(s: State, result: Option<seq<Device>>, resolved: set<(int, int)>)
    requires WithinBounds(s) && Enabled(s, ScanEnds(result, resolved))
    ensures WithinBounds(Next(s, ScanEnds(result, resolved)))
  {
    var op := s.todo[0];
    assert op in s.todo;
    ReportIsQuiet(result);
    if op.BootScan? {
      ReservesCounted(BootDevices(op.peers, Remembered(result), resolved), 0, 0);
    }
  }

  lemma TakeEventBounds(s: State)
    requires WithinBounds(s) && Enabled(s, TakeEvent)
    ensures WithinBounds(OnEvent(s))
  {
    var actions := Reduced(s.table, s.events[0]).1;
    QuietActions(actions, s.epochs);
    assert AllSound(Stamped(actions, s.epochs));
  }

  lemma WorkerBounds(s: State, l: Label)
    requires WithinBounds(s) && IsWorkerLabel(l) && Enabled(s, l)
    ensures WithinBounds(NextWorker(s, l))
  {
    var s' := NextWorker(s, l);
    assert s'.todo == s.todo && s'.requests == s.requests && s'.published == s.published && s'.epochs == s.epochs;
    assert forall i | 0 <= i < MAX_CONNECTIONS :: |s'.commands[i]| <= |s.commands[i]|;
    if l.Announce? {
      assert s'.events == s.events + [Connected(l.i, s.workers[l.i].phase.device)];
    } else if l.Report? {
      assert s'.events == s.events + [LastEvent(l.i, s.workers[l.i].phase.outcome)];
    } else {
      assert s'.events == s.events;
    }
  }

  lemma StepKeepsBounds(s: State, l: Label)
    requires WithinBounds(s) && Enabled(s, l)
    ensures WithinBounds(Next(s, l))
  {
    match l {
      case TakeRequest => RequestBounds(s);
      case TakeEvent => TakeEventBounds(s);
      case ScanEnds(result, resolved) => ScanEndsBounds(s, result, resolved);
      case ExecuteNext => assert s.todo[0] in s.todo;
      case Press(_) =>
      case SendRequest =>
      case ShowEvent =>
      case _ => WorkerBounds(s, l);
    }
  }

  // ─── Every global step is a local step of each slot ────────────────────────

  /** What `LocalInvariant` says of a slot that boot has still to reserve. */
  predicate BootReady(v: SlotView) {
    v.unbooted > 0 ==> v.unbooted == 1 && !C.IsOccupied(v.slot) && v.planned == [] && v.worker.pending.None?
  }

  ghost predicate IsLocalStep(s: State, s': State, i: nat, step: LocalStep)
    requires WithinBounds(s) && WithinBounds(s') && i < MAX_CONNECTIONS
  {
    LocalEnabled(ViewOf(s, i), step) && ViewOf(s', i) == ApplyLocal(i, ViewOf(s, i), step)
  }

  lemma StartScanPlanned(t: C.Table, epochs: seq<nat>, i: nat)
    requires i < MAX_CONNECTIONS == |epochs|
    ensures var ops := Stamped(C.PlanStartScan(t), epochs) + [Publish(U.ScanStarted), Scan];
            && Unbooted(ops, i) == 0
            && (Planned(ops, i) == [] || (C.IsOccupied(t[i]) && Planned(ops, i) == [Disconnect(epochs[i])]))
  {
    var tail := [Publish(U.ScanStarted), Scan];
    PlannedConcat(Stamped(C.PlanStartScan(t), epochs), tail, i);
    QuietOps(tail, i);
    PlannedDisconnects(t, epochs, 0, i);
  }

  lemma ScanRequestLocal(s: State, i: nat) returns (step: LocalStep)
    requires s.todo == [] && s.requests != [] && !s.requests[0].command.Connect?
    requires WithinBounds(s) && WithinBounds(OnRequest(s)) && i < MAX_CONNECTIONS
    ensures IsLocalStep(s, OnRequest(s), i, step)
  {
    var ops := OnRequest(s).todo;
    if s.requests[0].command.StartScan? {
      StartScanPlanned(s.table, s.epochs, i);
    } else {
      PlannedDisconnects(s.table, s.epochs, 0, i);
    }
    assert ViewOf(OnRequest(s), i) == ViewOf(s, i).(planned := Planned(ops, i), unbooted := 0);
    return if Planned(ops, i) == [] then Stay else PlanDisconnect;
  }

  lemma ConnectRequestLocal(s: State, i: nat) returns (step: LocalStep)
    requires s.todo == [] && s.requests != [] && s.requests[0].command.Connect?
    requires WithinBounds(s) && WithinBounds(OnRequest(s)) && i < MAX_CONNECTIONS
    ensures IsLocalStep(s, OnRequest(s), i, step)
  {
    var s' := OnRequest(s);
    var (table, actions) := C.PlanConnect(s.table, s.lastScan, s.requests[0].command.index);
    ConnectOutcome(s.table, s.lastScan, s.requests[0].command.index, s'.epochs);
    if actions == [] || actions[0].Emit? {
      QuietOps(s'.todo, i);
      return Stay;
    }
    var slot, d := actions[0].slot, actions[0].device;
    assert s'.todo == [Do(actions[0], s'.epochs[slot])] && s'.todo[1..] == [];
    if slot == i {
      assert Planned(s'.todo, i) == [Connect(d, s'.epochs[i])];
      return Reserve(d);
    }
    assert Planned(s'.todo, i) == [];
    return Stay;
  }

  lemma TakeEventLocal(s: State, i: nat) returns (step: LocalStep)
    requires WithinBounds(s) && Enabled(s, TakeEvent) && WithinBounds(OnEvent(s)) && i < MAX_CONNECTIONS
    ensures IsLocalStep(s, OnEvent(s), i, step)
  {
    var s', e := OnEvent(s), s.events[0];
    QuietActions(Reduced(s.table, e).1, s.epochs);
    QuietOps(s'.todo, i);
    if e.slot == i {
      assert EventsOf(s.events, i) == [e] + EventsOf(s.events[1..], i);
      return Handle;
    }
    return Stay;
  }

  lemma ExecuteLocal(s: State, i: nat) returns (step: LocalStep)
    requires WithinBounds(s) && Enabled(s, ExecuteNext) && WithinBounds(Execute(s)) && i < MAX_CONNECTIONS
    requires BootReady(ViewOf(s, i))
    ensures IsLocalStep(s, Execute(s), i, step)
  {
    var s', op, rest := Execute(s), s.todo[0], s.todo[1..];
    if op.BootReserve? {
      assert s'.todo[1..] == rest;
      assert Planned(s.todo, i) == Planned(rest, i);
      if op.slot == i {
        assert Planned(s'.todo, i) == [Connect(op.device, s'.epochs[i])] + Planned(rest, i);
        return Reserve(op.device);
      }
      assert Planned(s'.todo, i) == Planned(rest, i);
      return Stay;
    }
    assert s'.todo == rest;
    if CommandTo(op, i).Some? {
      assert Planned(s.todo, i) == [CommandTo(op, i).value] + Planned(rest, i);
      return Send;
    }
    assert Planned(s.todo, i) == Planned(rest, i);
    return Stay;
  }

  lemma AfterScanCounted(op: Op, result: Option<seq<Device>>, resolved: set<(int, int)>, i: nat)
    requires (op.Scan? || op.BootScan?) && IsSound(op)
    ensures var ops := AfterScan(op, result, resolved);
            Planned(ops, i) == [] && Unbooted(ops, i) <= (if op.BootScan? then 1 else 0)
  {
    var report, last := ScanReport(result), [Remember(Remembered(result))];
    var reserves := if op.BootScan? then Reserves(BootDevices(op.peers, Remembered(result), resolved), 0) else [];
    ReportIsQuiet(result);
    QuietOps(report, i);
    QuietOps(last, i);
    PlannedConcat(report + reserves, last, i);
    PlannedConcat(report, reserves, i);
    if op.BootScan? {
      ReservesCounted(BootDevices(op.peers, Remembered(result), resolved), 0, i);
    }
  }

  lemma ScanEndsLocal(s: State, result: Option<seq<Device>>, resolved: set<(int, int)>, i: nat) returns (step: LocalStep)
    requires WithinBounds(s) && Enabled(s, ScanEnds(result, resolved)) && i < MAX_CONNECTIONS
    requires WithinBounds(Next(s, ScanEnds(result, resolved)))
    ensures IsLocalStep(s, Next(s, ScanEnds(result, resolved)), i, step)
  {
    var s', op, rest := Next(s, ScanEnds(result, resolved)), s.todo[0], s.todo[1..];
    assert op in s.todo;
    AfterScanCounted(op, result, resolved, i);
    PlannedConcat(AfterScan(op, result, resolved), rest, i);
    return Unboot(Unbooted(s'.todo, i));
  }

  lemma WorkerElsewhere(s: State, l: Label, i: nat)
    requires WithinBounds(s) && IsWorkerLabel(l) && Enabled(s, l) && i < MAX_CONNECTIONS && l.i != i
    requires WithinBounds(NextWorker(s, l))
    ensures ViewOf(NextWorker(s, l), i) == ViewOf(s, i)
  {
    var w := s.workers[l.i];
    if l.Announce? {
      EventsAppend(s.events, Connected(l.i, w.phase.device), i);
    } else if l.Report? {
      EventsAppend(s.events, LastEvent(l.i, w.phase.outcome), i);
    }
  }

  /** The steps with which a worker tells the coordinator something. */
  lemma WorkerSends(s: State, l: Label)
    requires WithinBounds(s) && (l.Announce? || l.Report?) && Enabled(s, l)
    requires WithinBounds(NextWorker(s, l))
    ensures IsLocalStep(s, NextWorker(s, l), l.i, if l.Announce? then AnnounceLink else ReportEnd)
  {
    var w := s.workers[l.i];
    EventsAppend(s.events, if l.Announce? then Connected(l.i, w.phase.device) else LastEvent(l.i, w.phase.outcome), l.i);
  }

  lemma WorkerMoves(s: State, l: Label) returns (step: LocalStep)
    requires WithinBounds(s) && IsWorkerLabel(l) && !l.Announce? && !l.Report? && Enabled(s, l)
    requires WithinBounds(NextWorker(s, l)) && s.workers[l.i].pending.None?
    ensures IsLocalStep(s, NextWorker(s, l), l.i, step)
  {
    var ph := s.workers[l.i].phase;
    match l {
      case TakeCommand(_) => return Take;
      case LinkMade(_) => return Move(Announcing(ph.device, ph.epoch));
      case LinkFailed(_, tag) => return Move(Ending(Failed(tag), ph.device, ph.epoch));
      case Interrupt(_) => return InterruptLink;
      case LinkLost(_) => return Move(Ending(Closed, ph.device, ph.epoch));
    }
  }

  lemma WorkerLocal(s: State, l: Label, i: nat) returns (step: LocalStep)
    requires WithinBounds(s) && IsWorkerLabel(l) && Enabled(s, l) && i < MAX_CONNECTIONS
    requires WithinBounds(NextWorker(s, l)) && s.workers[i].pending.None?
    ensures IsLocalStep(s, NextWorker(s, l), i, step)
  {
    if l.i != i {
      WorkerElsewhere(s, l, i);
      return Stay;
    } else if l.Announce? || l.Report? {
      WorkerSends(s, l);
      return if l.Announce? then AnnounceLink else ReportEnd;
    }
    step := WorkerMoves(s, l);
  }

  /**
   Seen from one slot, the whole system is a run of the local machine: each step of any task
   is one local step of the slot, or none.
   */
  lemma ProjectsToLocalStep(s: State, l: Label, i: nat) returns (step: LocalStep)
    requires WithinBounds(s) && Enabled(s, l) && i < MAX_CONNECTIONS
    requires BootReady(ViewOf(s, i)) && s.workers[i].pending.None?
    ensures WithinBounds(Next(s, l)) && IsLocalStep(s, Next(s, l), i, step)
  {
    StepKeepsBounds(s, l);
    if IsWorkerLabel(l) {
      step := WorkerLocal(s, l, i);
    } else {
      match l {
        case TakeRequest =>
          if s.requests[0].command.Connect? {
            step := ConnectRequestLocal(s, i);
          } else {
            step := ScanRequestLocal(s, i);
          }
        case TakeEvent => step := TakeEventLocal(s, i);
        case ExecuteNext => step := ExecuteLocal(s, i);
        case ScanEnds(result, resolved) => step := ScanEndsLocal(s, result, resolved, i);
        case _ => step := Stay;
      }
    }
  }

  // ─── Global invariant ──────────────────────────────────────────────────────

  ghost predicate Invariant(s: State) {
    && WithinBounds(s)
    && forall i: nat | i < MAX_CONNECTIONS :: LocalInvariant(i, ViewOf(s, i))
  }

  lemma BootPlanned(peers: seq<Device>, i: nat)
    ensures var todo := [Publish(U.ScanStarted), BootScan(peers)]; Planned(todo, i) == [] && Unbooted(todo, i) == 1
  {
    var first, scan := [Publish(U.ScanStarted)], [BootScan(peers)];
    QuietOps(first, i);
    assert scan[1..] == [];
    assert Planned(scan, i) == [] && Unbooted(scan, i) == 1;
    PlannedConcat(first, scan, i);
    assert first + scan == [Publish(U.ScanStarted), BootScan(peers)];
  }

  lemma InitialInvariant(peers: seq<Device>)
    requires |peers| <= MAX_CONNECTIONS
    ensures Invariant(Initial(peers))
  {
    var s := Initial(peers);
    forall i: nat | i < MAX_CONNECTIONS
      ensures LocalInvariant(i, ViewOf(s, i))
    {
      BootPlanned(peers, i);
      assert Pipeline(ViewOf(s, i)) == [];
    }
  }

  lemma StepKeepsInvariant(s: State, l: Label)
    requires Invariant(s) && Enabled(s, l)
    ensures Invariant(Next(s, l))
  {
    StepKeepsBounds(s, l);
    forall i: nat | i < MAX_CONNECTIONS
      ensures LocalInvariant(i, ViewOf(Next(s, l), i))
    {
      var step := ProjectsToLocalStep(s, l, i);
      LocalStepKeeps(i, ViewOf(s, i), step);
    }
  }

  lemma {:induction false} RunKeepsInvariant(peers: seq<Device>, run: seq<State>, labels: seq<Label>, n: nat)
    requires IsRun(peers, run, labels) && n < |run|
    ensures Invariant(run[n])
  {
    if n == 0 {
      InitialInvariant(peers);
    } else {
      RunKeepsInvariant(peers, run, labels, n - 1);
      StepKeepsInvariant(run[n - 1], labels[n - 1]);
    }
  }
}
