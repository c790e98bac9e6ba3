/**
 What the UI believes against what the coordinator knows. The events published and about to
 be published are folded over the UI's state; the result is the coordinator's truth in every
 state of every run.
 */
module UiRuns {
  import opened Types
  import opened Scanner
  import opened Reconnect
  import opened Protocol
  import opened SlotInvariant
  import opened SlotRuns
  import C = Coordinator
  import U = Ui

  // ─── Folding the event stream ──────────────────────────────────────────────

  /** Whether a scan is being listed, what it has listed, how many began, whether a link is up and its text. */
  datatype Belief = Belief(inScan: bool, listed: seq<Device>, scans: nat, linked: bool, text: string)

  function Follow(b: Belief, e: U.BleEvent): Belief {
    match e
    case ScanStarted => b.(inScan := true, listed := [], scans := b.scans + 1)
    case DeviceFound(d) => b.(listed := b.listed + [d])
    case ScanComplete => b.(inScan := false)
    case LinkUp(summary) => b.(linked := true, text := summary)
    case AllDown => b.(linked := false, text := "")
    case Failed(_) => b.(inScan := false)
  }

  /** A scan starts outside a scan, lists at most eight devices, ends once, and is not interrupted. */
  predicate Fits(b: Belief, e: U.BleEvent) {
    match e
    case ScanStarted => !b.inScan
    case DeviceFound(_) => b.inScan && |b.listed| < U.MAX_LISTED
    case ScanComplete => b.inScan
    case LinkUp(_) => !b.inScan
    case AllDown => !b.inScan
    case Failed(tag) => b.inScan == tag.ScanFailed? || !b.inScan
  }

  function FollowAll(b: Belief, events: seq<U.BleEvent>): Belief
    decreases |events|
  {
    if events == [] then b else FollowAll(Follow(b, events[0]), events[1..])
  }

  predicate FitAll(b: Belief, events: seq<U.BleEvent>)
    decreases |events|
  {
    events == [] || (Fits(b, events[0]) && FitAll(Follow(b, events[0]), events[1..]))
  }

  lemma {:induction false} FollowConcat(b: Belief, x: seq<U.BleEvent>, y: seq<U.BleEvent>)
    ensures FollowAll(b, x + y) == FollowAll(FollowAll(b, x), y)
    ensures FitAll(b, x + y) <==> FitAll(b, x) && FitAll(FollowAll(b, x), y)
    decreases |x|
  {
    if x == [] {
      assert x + y == y;
    } else {
      assert (x + y)[0] == x[0] && (x + y)[1..] == x[1..] + y;
      FollowConcat(Follow(b, x[0]), x[1..], y);
    }
  }

  lemma FollowOne(b: Belief, e: U.BleEvent)
    ensures FollowAll(b, [e]) == Follow(b, e) && (FitAll(b, [e]) <==> Fits(b, e))
  {
    assert [e][1..] == [];
  }

  /** The events `todo` has still to publish; those of a pending scan are not known yet. */
  function Upcoming(todo: seq<Op>): seq<U.BleEvent> {
    if todo == [] then [] else
    match EventOf(todo[0])
    case Some(e) => [e] + Upcoming(todo[1..])
    case None => Upcoming(todo[1..])
  }

  lemma {:induction false} UpcomingConcat(a: seq<Op>, b: seq<Op>)
    ensures Upcoming(a + b) == Upcoming(a) + Upcoming(b)
  {
    if a == [] {
      assert a + b == b;
    } else {
      assert (a + b)[0] == a[0] && (a + b)[1..] == a[1..] + b;
      UpcomingConcat(a[1..], b);
    }
  }

  lemma {:induction false} Silent(ops: seq<Op>)
    requires forall op | op in ops :: EventOf(op).None?
    ensures Upcoming(ops) == []
  {
    if ops != [] {
      assert ops[0] in ops;
      Silent(ops[1..]);
    }
  }

  function Stream(s: State): seq<U.BleEvent> {
    s.published + Upcoming(s.todo)
  }

  // ─── Belief and truth ──────────────────────────────────────────────────────

  function BeliefOf(ui: UiTask): Belief {
    Belief(ui.inScan, ui.listed, ui.seen, ui.view.bleConnected, ui.view.connectedName)
  }

  predicate IsScanOp(op: Op) {
    op.Scan? || op.BootScan?
  }

  predicate ScanPending(todo: seq<Op>) {
    todo != [] && IsScanOp(todo[|todo| - 1])
  }

  /** The scan result the coordinator holds, or will hold once it has nothing left to do. */
  function CurrentList(s: State): seq<Device> {
    if s.todo != [] && s.todo[|s.todo| - 1].Remember? then s.todo[|s.todo| - 1].devices else s.lastScan
  }

  function Truth(s: State): Belief {
    var pending := ScanPending(s.todo);
    Belief(pending, if pending then [] else CurrentList(s), s.scans, C.ActiveCount(s.table) > 0, LinkText(s.table))
  }

  /** The text that goes with the table: its summary, or nothing while no link is up. */
  function LinkText(t: C.Table): string {
    if C.ActiveCount(t) > 0 then C.Summary(t) else ""
  }

  /** Slots that are not connected do not show in the text. */
  lemma LinkTextStays(t: C.Table, t': C.Table)
    requires forall i | 0 <= i < MAX_CONNECTIONS :: t'[i] == t[i] || (!t[i].connected && !t'[i].connected)
    ensures C.ActiveCount(t') == C.ActiveCount(t) && LinkText(t') == LinkText(t)
  {
    C.SummaryMeaning(t);
    C.SummaryMeaning(t');
  }

  /** A radio scan, or remembering its result, comes last. */
  ghost predicate IsShaped(todo: seq<Op>) {
    forall k | 0 <= k < |todo| - 1 :: !IsScanOp(todo[k]) && !todo[k].Remember?
  }

  ghost predicate Agrees(s: State) {
    && IsShaped(s.todo)
    && FitAll(BeliefOf(s.ui), Stream(s))
    && FollowAll(BeliefOf(s.ui), Stream(s)) == Truth(s)
  }

  predicate IsPlain(op: Op) {
    !IsScanOp(op) && !op.Remember?
  }

  lemma PlainShaped(ops: seq<Op>)
    requires forall op | op in ops :: IsPlain(op)
    ensures IsShaped(ops) && !ScanPending(ops)
    ensures ops != [] ==> !ops[|ops| - 1].Remember?
  {
    assert forall k | 0 <= k < |ops| :: ops[k] in ops;
  }

  lemma ShapedThen(ops: seq<Op>, last: Op)
    requires forall op | op in ops :: IsPlain(op)
    ensures IsShaped(ops + [last]) && (ops + [last])[|ops + [last]| - 1] == last
  {
    assert forall k | 0 <= k < |ops| :: (ops + [last])[k] == ops[k] && ops[k] in ops;
  }

  // ─── Coordinator steps ─────────────────────────────────────────────────────

  /** An idle coordinator takes up work that publishes `events` and leads to the new truth. */
  lemma TakesUp(s: State, s': State, events: seq<U.BleEvent>)
    requires Agrees(s) && s.todo == [] && s'.published == s.published && s'.ui == s.ui
    requires IsShaped(s'.todo) && Upcoming(s'.todo) == events
    requires FitAll(Truth(s), events) && FollowAll(Truth(s), events) == Truth(s')
    ensures Agrees(s')
  {
    assert Stream(s) == s.published;
    FollowConcat(BeliefOf(s.ui), s.published, events);
  }

  lemma {:induction false} OnlyDisconnects(t: C.Table, epochs: seq<nat>, k: nat)
    requires k <= MAX_CONNECTIONS
    ensures forall op | op in Stamped(C.DisconnectFrom(t, k), epochs) :: op.Do? && op.action.DisconnectSlot?
    decreases MAX_CONNECTIONS - k
  {
    if k < MAX_CONNECTIONS {
      OnlyDisconnects(t, epochs, k + 1);
      var rest := C.DisconnectFrom(t, k + 1);
      if C.IsOccupied(t[k]) {
        StampedCons(C.DisconnectSlot(k), rest, epochs);
      } else {
        assert C.DisconnectFrom(t, k) == rest;
      }
    }
  }

  lemma StartScanWork(t: C.Table, epochs: seq<nat>)
    ensures var ops := Stamped(C.PlanStartScan(t), epochs) + [Publish(U.ScanStarted), Scan];
            IsShaped(ops) && ScanPending(ops) && Upcoming(ops) == [U.ScanStarted]
  {
    var ops := Stamped(C.PlanStartScan(t), epochs);
    OnlyDisconnects(t, epochs, 0);
    Silent(ops);
    PublishOne(U.ScanStarted);
    Silent([Scan]);
    UpcomingConcat(ops, [Publish(U.ScanStarted)]);
    UpcomingConcat(ops + [Publish(U.ScanStarted)], [Scan]);
    ShapedThen(ops + [Publish(U.ScanStarted)], Scan);
    assert ops + [Publish(U.ScanStarted)] + [Scan] == ops + [Publish(U.ScanStarted), Scan];
  }

  lemma StartScanAgrees(s: State)
    requires Agrees(s) && s.todo == [] && s.requests != [] && s.requests[0].command.StartScan?
    ensures Agrees(OnRequest(s))
  {
    StartScanWork(s.table, s.epochs);
    FollowOne(Truth(s), U.ScanStarted);
    TakesUp(s, OnRequest(s), [U.ScanStarted]);
  }

  /** A refused Connect publishes its failure; any other publishes nothing and no link changes. */
  lemma ConnectWork(t: C.Table, devices: seq<Device>, index: nat, epochs: seq<nat>)
    ensures var (t', actions) := C.PlanConnect(t, devices, index);
            var ops := Stamped(actions, epochs);
            && C.ActiveCount(t') == C.ActiveCount(t) && LinkText(t') == LinkText(t)
            && (Upcoming(ops) == [] || Upcoming(ops) == [U.Failed(C.ConnectFailed)])
            && IsShaped(ops) && !ScanPending(ops) && (ops != [] ==> !ops[|ops| - 1].Remember?)
  {
    var (t', actions) := C.PlanConnect(t, devices, index);
    ConnectOutcome(t, devices, index, epochs);
    LinkTextStays(t, t');
    var ops := Stamped(actions, epochs);
    if ops != [] {
      assert ops[1..] == [];
    }
  }

  lemma ConnectAgrees(s: State)
    requires Agrees(s) && s.todo == [] && s.requests != [] && s.requests[0].command.Connect?
    ensures Agrees(OnRequest(s))
  {
    var s' := OnRequest(s);
    ConnectWork(s.table, s.lastScan, s.requests[0].command.index, s'.epochs);
    FollowOne(Truth(s), U.Failed(C.ConnectFailed));
    TakesUp(s, s', Upcoming(s'.todo));
  }

  lemma DisconnectWork(t: C.Table, epochs: seq<nat>)
    ensures var ops := Stamped(C.PlanDisconnect(t), epochs);
            Upcoming(ops) == [] && IsShaped(ops) && !ScanPending(ops) && (ops != [] ==> !ops[|ops| - 1].Remember?)
  {
    OnlyDisconnects(t, epochs, 0);
    Silent(Stamped(C.PlanDisconnect(t), epochs));
    PlainShaped(Stamped(C.PlanDisconnect(t), epochs));
  }

  lemma DisconnectAgrees(s: State)
    requires Agrees(s) && s.todo == [] && s.requests != [] && s.requests[0].command.Disconnect?
    ensures Agrees(OnRequest(s))
  {
    DisconnectWork(s.table, s.epochs);
    TakesUp(s, OnRequest(s), []);
  }

  lemma RequestAgrees(s: State)
    requires Agrees(s) && Enabled(s, TakeRequest)
    ensures Agrees(OnRequest(s))
  {
    match s.requests[0].command {
      case StartScan => StartScanAgrees(s);
      case Connect(_) => ConnectAgrees(s);
      case Disconnect => DisconnectAgrees(s);
    }
  }

  /** What a slot event makes the coordinator publish, last status included. */
  function Consequence(t: C.Table, e: SlotEvent): seq<U.BleEvent> {
    var t' := Reduced(t, e).0;
    var status := if C.ActiveCount(t') == 0 then U.AllDown else U.LinkUp(C.Summary(t'));
    if e.Error? then [U.Failed(e.tag), status] else [status]
  }

  lemma {:induction false} UpcomingActions(actions: seq<C.Action>, epochs: seq<nat>)
    requires forall a | a in actions :: IsQuietAction(a)
    ensures Upcoming(Stamped(actions, epochs)) == EmittedBy(actions)
    ensures forall op | op in Stamped(actions, epochs) :: op.Do?
  {
    if actions != [] {
      assert actions[0] in actions;
      UpcomingActions(actions[1..], epochs);
      var tail := Stamped(actions[1..], epochs);
      assert Stamped(actions, epochs)[1..] == tail;
    }
  }

  function EmittedBy(actions: seq<C.Action>): seq<U.BleEvent> {
    if actions == [] then []
    else if actions[0].Emit? then [ToBle(actions[0].event)] + EmittedBy(actions[1..])
    else EmittedBy(actions[1..])
  }

  lemma EventEmits(t: C.Table, e: SlotEvent)
    requires e.slot < MAX_CONNECTIONS
    ensures EmittedBy(Reduced(t, e).1) == Consequence(t, e)
  {
    var actions := Reduced(t, e).1;
    if |actions| == 2 {
      assert actions[1..] == [actions[1]] && actions[1..][1..] == [];
      assert EmittedBy(actions[1..]) == [ToBle(actions[1].event)];
    } else {
      assert actions[1..] == [];
    }
  }

  lemma ConsequenceFits(b: Belief, t: C.Table, e: SlotEvent)
    requires !b.inScan
    ensures FitAll(b, Consequence(t, e))
    ensures var t' := Reduced(t, e).0;
            FollowAll(b, Consequence(t, e)) == b.(linked := C.ActiveCount(t') > 0, text := LinkText(t'))
  {
    var cs := Consequence(t, e);
    FollowOne(b, cs[|cs| - 1]);
    if e.Error? {
      assert cs == [cs[0]] + [cs[1]];
      FollowConcat(b, [cs[0]], [cs[1]]);
      FollowOne(b, cs[0]);
      FollowOne(Follow(b, cs[0]), cs[1]);
    }
  }

  lemma ActionsWork(actions: seq<C.Action>, epochs: seq<nat>)
    requires forall a | a in actions :: IsQuietAction(a)
    ensures var ops := Stamped(actions, epochs);
            && Upcoming(ops) == EmittedBy(actions) && IsShaped(ops) && !ScanPending(ops)
            && (ops != [] ==> !ops[|ops| - 1].Remember?)
  {
    UpcomingActions(actions, epochs);
    PlainShaped(Stamped(actions, epochs));
  }

  lemma EventActions(t: C.Table, e: SlotEvent)
    ensures forall a | a in Reduced(t, e).1 :: IsQuietAction(a)
  {}

  lemma EventWork(t: C.Table, e: SlotEvent, epochs: seq<nat>)
    requires e.slot < MAX_CONNECTIONS
    ensures var ops := Stamped(Reduced(t, e).1, epochs);
            && Upcoming(ops) == Consequence(t, e) && IsShaped(ops) && !ScanPending(ops)
            && (ops != [] ==> !ops[|ops| - 1].Remember?)
  {
    EventActions(t, e);
    ActionsWork(Reduced(t, e).1, epochs);
    EventEmits(t, e);
  }

  lemma TakeEventAgrees(s: State)
    requires Invariant(s) && Agrees(s) && Enabled(s, TakeEvent)
    ensures Agrees(OnEvent(s))
  {
    EventWork(s.table, s.events[0], s.epochs);
    ConsequenceFits(Truth(s), s.table, s.events[0]);
    var t' := Reduced(s.table, s.events[0]).0;
    assert Truth(OnEvent(s)) == Truth(s).(linked := C.ActiveCount(t') > 0, text := LinkText(t'));
    TakesUp(s, OnEvent(s), Consequence(s.table, s.events[0]));
  }

  lemma ExecuteKeepsStream(s: State)
    requires Enabled(s, ExecuteNext)
    ensures Stream(Execute(s)) == Stream(s)
  {
    var s', op, rest := Execute(s), s.todo[0], s.todo[1..];
    if op.BootReserve? {
      assert s'.todo[1..] == rest;
    } else if EventOf(op).Some? {
      var e := EventOf(op).value;
      assert s'.published + Upcoming(rest) == s.published + ([e] + Upcoming(rest));
    }
  }

  lemma BootReservesFree(s: State)
    requires Invariant(s) && Enabled(s, ExecuteNext)
    ensures s.todo[0].BootReserve? ==> !s.table[s.todo[0].slot].connected
  {
    if s.todo[0].BootReserve? {
      assert LocalInvariant(s.todo[0].slot, ViewOf(s, s.todo[0].slot));
    }
  }

  /** Planned work whose first operation was replaced by another plain one. */
  lemma HeadReplaced(a: Op, b: Op, rest: seq<Op>)
    requires IsShaped([a] + rest) && IsPlain(a) && IsPlain(b)
    ensures IsShaped([b] + rest) && ScanPending([b] + rest) == ScanPending([a] + rest)
    ensures rest != [] ==> ([a] + rest)[|rest|] == ([b] + rest)[|rest|]
  {
    assert forall k | 0 < k <= |rest| :: ([b] + rest)[k] == ([a] + rest)[k];
  }

  lemma ReserveKeepsTruth(s: State)
    requires IsShaped(s.todo) && Enabled(s, ExecuteNext) && s.todo[0].BootReserve?
    requires !s.table[s.todo[0].slot].connected
    ensures IsShaped(Execute(s).todo) && Truth(Execute(s)) == Truth(s)
  {
    var s', rest := Execute(s), s.todo[1..];
    assert s.todo == [s.todo[0]] + rest && s'.todo == [s'.todo[0]] + rest;
    HeadReplaced(s.todo[0], s'.todo[0], rest);
    LinkTextStays(s.table, s'.table);
  }

  lemma ExecuteKeepsTruth(s: State)
    requires IsShaped(s.todo) && Enabled(s, ExecuteNext)
    requires s.todo[0].BootReserve? ==> !s.table[s.todo[0].slot].connected
    ensures IsShaped(Execute(s).todo) && Truth(Execute(s)) == Truth(s)
  {
    var s', rest := Execute(s), s.todo[1..];
    if s.todo[0].BootReserve? {
      ReserveKeepsTruth(s);
    } else {
      assert rest != [] ==> rest[|rest| - 1] == s.todo[|s.todo| - 1];
      assert s'.todo == rest && s'.table == s.table;
    }
  }

  lemma ExecuteAgrees(s: State)
    requires Agrees(s) && Enabled(s, ExecuteNext)
    requires s.todo[0].BootReserve? ==> !s.table[s.todo[0].slot].connected
    ensures Agrees(Execute(s))
  {
    ExecuteKeepsStream(s);
    ExecuteKeepsTruth(s);
  }

  lemma UpcomingFoundFirst(devices: seq<Device>)
    requires devices != []
    ensures var events := Upcoming(Found(devices));
            events != [] && events[0] == U.DeviceFound(devices[0]) && events[1..] == Upcoming(Found(devices[1..]))
  {
    assert Found(devices)[1..] == Found(devices[1..]);
  }

  lemma {:induction false} UpcomingFound(b: Belief, devices: seq<Device>)
    requires b.inScan && |b.listed| + |devices| <= U.MAX_LISTED
    ensures FitAll(b, Upcoming(Found(devices)))
    ensures FollowAll(b, Upcoming(Found(devices))) == b.(listed := b.listed + devices)
    decreases |devices|
  {
    if devices == [] {
      assert b.listed + devices == b.listed;
    } else {
      UpcomingFoundFirst(devices);
      var b' := b.(listed := b.listed + [devices[0]]);
      UpcomingFound(b', devices[1..]);
      assert b'.listed + devices[1..] == b.listed + devices;
    }
  }

  lemma PublishOne(e: U.BleEvent)
    ensures Upcoming([Publish(e)]) == [e]
  {
    assert [Publish(e)][1..] == [];
  }

  lemma ReportFollowed(b: Belief, result: Option<seq<Device>>)
    requires b.inScan && b.listed == [] && IsScanResult(result)
    ensures FitAll(b, Upcoming(ScanReport(result)))
    ensures FollowAll(b, Upcoming(ScanReport(result))) == b.(inScan := false, listed := Remembered(result))
  {
    match result {
      case None =>
        PublishOne(U.Failed(C.ScanFailed));
        FollowOne(b, U.Failed(C.ScanFailed));
      case Some(devices) =>
        UpcomingFound(b, devices);
        UpcomingConcat(Found(devices), [Publish(U.ScanComplete)]);
        PublishOne(U.ScanComplete);
        FollowConcat(b, Upcoming(Found(devices)), [U.ScanComplete]);
        FollowOne(FollowAll(b, Upcoming(Found(devices))), U.ScanComplete);
        assert [] + devices == devices;
    }
  }

  lemma {:induction false} ReservesSilent(devices: seq<Device>, k: nat)
    ensures forall op | op in Reserves(devices, k) :: op.BootReserve?
    decreases |devices| - k
  {
    if k < |devices| {
      ReservesSilent(devices, k + 1);
    }
  }

  lemma {:induction false} FoundPublishes(devices: seq<Device>)
    ensures |Found(devices)| == |devices|
    ensures forall op | op in Found(devices) :: op.Publish?
  {
    if devices != [] {
      FoundPublishes(devices[1..]);
    }
  }

  lemma WorkAfterScan(report: seq<Op>, reserves: seq<Op>, last: Op)
    requires (forall o | o in report :: o.Publish?) && (forall o | o in reserves :: o.BootReserve?) && last.Remember?
    ensures var ops := report + reserves + [last];
            Upcoming(ops) == Upcoming(report) && ops[|ops| - 1] == last && IsShaped(ops)
  {
    Silent(reserves);
    Silent([last]);
    UpcomingConcat(report + reserves, [last]);
    UpcomingConcat(report, reserves);
    ShapedThen(report + reserves, last);
  }

  lemma AfterScanUpcoming(op: Op, result: Option<seq<Device>>, resolved: set<(int, int)>)
    requires IsScanOp(op)
    ensures var ops := AfterScan(op, result, resolved);
            && Upcoming(ops) == Upcoming(ScanReport(result))
            && ops != [] && ops[|ops| - 1] == Remember(Remembered(result)) && IsShaped(ops)
  {
    var reserves := if op.BootScan? then Reserves(BootDevices(op.peers, Remembered(result), resolved), 0) else [];
    FoundPublishes(Remembered(result));
    if op.BootScan? {
      ReservesSilent(BootDevices(op.peers, Remembered(result), resolved), 0);
    }
    WorkAfterScan(ScanReport(result), reserves, Remember(Remembered(result)));
  }

  /** The end of a scan publishes its report and remembers the result. */
  lemma ReportAgrees(s: State, s': State, result: Option<seq<Device>>)
    requires Agrees(s) && Truth(s).inScan && Stream(s) == s.published && IsScanResult(result)
    requires IsShaped(s'.todo) && Upcoming(s'.todo) == Upcoming(ScanReport(result))
    requires s'.published == s.published && s'.ui == s.ui
    requires Truth(s') == Truth(s).(inScan := false, listed := Remembered(result))
    ensures Agrees(s')
  {
    ReportFollowed(Truth(s), result);
    FollowConcat(BeliefOf(s.ui), s.published, Upcoming(ScanReport(result)));
  }

  lemma ScanEndsAgrees(s: State, l: Label)
    requires Agrees(s) && l.ScanEnds? && Enabled(s, l)
    ensures Agrees(Next(s, l))
  {
    var s', op := Next(s, l), s.todo[0];
    assert s.todo == [op];
    AfterScanUpcoming(op, l.result, l.resolved);
    assert s'.todo == AfterScan(op, l.result, l.resolved);
    assert s.todo[1..] == [] && Upcoming(s.todo) == [];
    assert Stream(s) == s.published;
    ReportAgrees(s, s', l.result);
  }

  // ─── UI steps ──────────────────────────────────────────────────────────────

  lemma ShowAgrees(s: State)
    requires Agrees(s) && Enabled(s, ShowEvent)
    ensures Agrees(Next(s, ShowEvent)) && Fits(BeliefOf(s.ui), s.published[0])
  {
    var s', e := Next(s, ShowEvent), s.published[0];
    assert Stream(s)[0] == e && Stream(s)[1..] == Stream(s');
    assert BeliefOf(s'.ui) == Follow(BeliefOf(s.ui), e);
  }

  lemma StepKeepsAgreement(s: State, l: Label)
    requires Invariant(s) && Agrees(s) && Enabled(s, l)
    ensures Agrees(Next(s, l))
  {
    match l {
      case TakeRequest => RequestAgrees(s);
      case TakeEvent => TakeEventAgrees(s);
      case ExecuteNext =>
        BootReservesFree(s);
        ExecuteAgrees(s);
      case ScanEnds(_, _) => ScanEndsAgrees(s, l);
      case Press(_) => assert BeliefOf(Next(s, l).ui) == BeliefOf(s.ui);
      case SendRequest =>
      case ShowEvent => ShowAgrees(s);
      case _ => WorkerAgrees(s, l);
    }
  }

  lemma WorkerLeavesUi(s: State, l: Label)
    requires IsWorkerLabel(l) && Enabled(s, l)
    ensures var s' := NextWorker(s, l);
            && s'.ui == s.ui && s'.published == s.published && s'.requests == s.requests && s'.todo == s.todo
            && s'.table == s.table && s'.scans == s.scans && s'.lastScan == s.lastScan
  {}

  lemma WorkerAgrees(s: State, l: Label)
    requires IsWorkerLabel(l) && Enabled(s, l) && Agrees(s)
    ensures Agrees(NextWorker(s, l))
  {
    WorkerLeavesUi(s, l);
    assert Stream(NextWorker(s, l)) == Stream(s) && Truth(NextWorker(s, l)) == Truth(s);
  }

  lemma InitialAgrees(peers: seq<Device>)
    ensures Agrees(Initial(peers))
  {
    var s := Initial(peers);
    if peers != [] {
      Silent([BootScan(peers)]);
      assert s.todo[1..] == [BootScan(peers)];
      assert Stream(s) == [U.ScanStarted];
      FollowOne(BeliefOf(s.ui), U.ScanStarted);
    }
  }

  /**
   In every state of every run: once the UI has shown all that is published and about to be
   published, it lists the coordinator's scan result, knows how many scans began, and shows
   a connection exactly if some slot is connected. On the way every event fits the UI's state.
   */
  lemma {:induction false} RunKeepsAgreement(peers: seq<Device>, run: seq<State>, labels: seq<Label>, n: nat)
    requires IsRun(peers, run, labels) && n < |run|
    ensures Agrees(run[n])
  {
    if n == 0 {
      InitialAgrees(peers);
    } else {
      RunKeepsAgreement(peers, run, labels, n - 1);
      RunKeepsInvariant(peers, run, labels, n - 1);
      StepKeepsAgreement(run[n - 1], labels[n - 1]);
    }
  }
}
