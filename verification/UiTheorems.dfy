/** What the user sees and picks: rows, selections and the connection flag over every run. */
module UiTheorems {
  import opened Types
  import opened Reconnect
  import opened Scanner
  import opened Protocol
  import opened SlotInvariant
  import opened SlotRuns
  import opened SlotTheorems
  import opened UiRuns
  import C = Coordinator
  import U = Ui

  // ─── The screen ────────────────────────────────────────────────────────────

  /** The rows of the screen are the listed devices. */
  ghost predicate Shows(v: U.View, listed: seq<Device>) {
    && v.deviceCount == |v.devices| == |listed|
    && forall k | 0 <= k < |listed| :: v.devices[k] == listed[k].name
  }

  ghost predicate ScreenFits(ui: UiTask) {
    && |ui.listed| <= U.MAX_LISTED
    && (ui.inScan ==> ui.view.screen.Scanning? && Shows(ui.view, ui.listed))
    && (ui.view.screen.DeviceList? ==> !ui.inScan && Shows(ui.view, ui.listed) && ui.view.selected < |ui.listed|)
  }

  lemma PressKeepsScreen(ui: UiTask, btn: U.ButtonEvent)
    requires ScreenFits(ui)
    ensures ScreenFits(UiPressed(ui, btn))
  {}

  lemma ShowKeepsScreen(ui: UiTask, e: U.BleEvent)
    requires ScreenFits(ui) && Fits(BeliefOf(ui), e)
    ensures ScreenFits(UiShown(ui, e))
  {}

  // ─── Queued requests ───────────────────────────────────────────────────────

  /** A pick is one of eight rows, and one from the newest scan names the device the coordinator holds there. */
  ghost predicate RequestFits(q: Request, seen: nat, truth: Belief) {
    && q.scan <= seen
    && (q.command.Connect? ==> q.command.index < U.MAX_LISTED)
    && (q.command.Connect? && q.scan == truth.scans ==>
          && !truth.inScan && q.command.index < |truth.listed|
          && q.picked == Some(truth.listed[q.command.index]))
  }

  ghost predicate RequestsFit(s: State) {
    && (forall q | q in s.requests :: RequestFits(q, s.ui.seen, Truth(s)))
    && (s.ui.sending.Some? ==> RequestFits(s.ui.sending.value, s.ui.seen, Truth(s)))
  }

  lemma {:induction false} ScansOnlyStart(b: Belief, events: seq<U.BleEvent>)
    requires FitAll(b, events)
    ensures FollowAll(b, events).scans >= b.scans
    ensures FollowAll(b, events).scans == b.scans && !b.inScan ==>
              FollowAll(b, events).listed == b.listed && !FollowAll(b, events).inScan
    decreases |events|
  {
    if events != [] {
      ScansOnlyStart(Follow(b, events[0]), events[1..]);
    }
  }

  /** What a step can do to the list: nothing, start a scan, or end the pending one. */
  ghost predicate ListMoves(b: Belief, b': Belief) {
    || (b'.inScan == b.inScan && b'.listed == b.listed && b'.scans == b.scans)
    || b'.scans == b.scans + 1
    || (b.inScan && b'.scans == b.scans)
  }

  lemma RequestMovesList(s: State)
    requires Agrees(s) && Enabled(s, TakeRequest)
    ensures ListMoves(Truth(s), Truth(OnRequest(s)))
  {
    if s.requests[0].command.Disconnect? {
      DisconnectWork(s.table, s.epochs);
    } else if s.requests[0].command.Connect? {
      ConnectWork(s.table, s.lastScan, s.requests[0].command.index, OnRequest(s).epochs);
    }
  }

  lemma EventKeepsList(s: State)
    requires Invariant(s) && Agrees(s) && Enabled(s, TakeEvent)
    ensures ListMoves(Truth(s), Truth(OnEvent(s)))
  {
    EventWork(s.table, s.events[0], s.epochs);
  }

  lemma ScanEndsMovesList(s: State, l: Label)
    requires Agrees(s) && l.ScanEnds? && Enabled(s, l)
    ensures ListMoves(Truth(s), Truth(Next(s, l)))
  {
    assert s.todo == [s.todo[0]];
  }

  lemma UiLeavesRest(s: State, l: Label)
    requires IsUiLabel(l) && Enabled(s, l)
    ensures var s' := Next(s, l);
            s'.todo == s.todo && s'.table == s.table && s'.scans == s.scans && s'.lastScan == s.lastScan
  {}

  lemma SameTruth(s: State, s': State)
    requires s'.todo == s.todo && s'.table == s.table && s'.scans == s.scans && s'.lastScan == s.lastScan
    ensures Truth(s') == Truth(s)
  {}

  lemma OthersKeepTruth(s: State, l: Label)
    requires (IsUiLabel(l) || IsWorkerLabel(l)) && Enabled(s, l)
    ensures Truth(Next(s, l)) == Truth(s)
  {
    if IsWorkerLabel(l) {
      WorkerLeavesUi(s, l);
    } else {
      UiLeavesRest(s, l);
    }
    SameTruth(s, Next(s, l));
  }

  lemma StepMovesList(s: State, l: Label)
    requires Invariant(s) && Agrees(s) && Enabled(s, l)
    ensures ListMoves(Truth(s), Truth(Next(s, l)))
  {
    match l {
      case TakeRequest => RequestMovesList(s);
      case TakeEvent => EventKeepsList(s);
      case ExecuteNext =>
        BootReservesFree(s);
        ExecuteKeepsTruth(s);
      case ScanEnds(_, _) => ScanEndsMovesList(s, l);
      case _ => OthersKeepTruth(s, l);
    }
  }

  lemma PickFits(s: State, btn: U.ButtonEvent)
    requires Agrees(s) && ScreenFits(s.ui)
    ensures var q := UiPressed(s.ui, btn).sending; q.Some? ==> RequestFits(q.value, s.ui.seen, Truth(s))
  {
    ScansOnlyStart(BeliefOf(s.ui), Stream(s));
  }

  lemma StepMovesRequests(s: State, l: Label)
    requires Enabled(s, l)
    ensures Next(s, l).ui.seen >= s.ui.seen
    ensures forall q | q in Next(s, l).requests :: q in s.requests || Some(q) == s.ui.sending
    ensures Next(s, l).ui.sending.Some? && !l.Press? ==> Next(s, l).ui.sending == s.ui.sending
  {
    match l {
      case TakeRequest =>
      case TakeEvent =>
      case ExecuteNext =>
      case ScanEnds(_, _) =>
      case Press(_) =>
      case SendRequest =>
      case ShowEvent =>
      case _ => WorkerLeavesUi(s, l);
    }
  }

  lemma RequestStillFits(q: Request, seen: nat, seen': nat, truth: Belief, truth': Belief)
    requires RequestFits(q, seen, truth) && ListMoves(truth, truth') && seen <= seen' && seen <= truth.scans
    ensures RequestFits(q, seen', truth')
  {}

  lemma StepKeepsRequests(s: State, l: Label)
    requires Invariant(s) && Agrees(s) && ScreenFits(s.ui) && RequestsFit(s) && Enabled(s, l)
    ensures RequestsFit(Next(s, l))
  {
    var s' := Next(s, l);
    StepMovesList(s, l);
    StepMovesRequests(s, l);
    ScansOnlyStart(BeliefOf(s.ui), Stream(s));
    forall q | RequestFits(q, s.ui.seen, Truth(s))
      ensures RequestFits(q, s'.ui.seen, Truth(s'))
    {
      RequestStillFits(q, s.ui.seen, s'.ui.seen, Truth(s), Truth(s'));
    }
    if l.Press? {
      PickFits(s, l.btn);
    }
  }

  lemma StepKeepsScreen(s: State, l: Label)
    requires Agrees(s) && ScreenFits(s.ui) && Enabled(s, l)
    ensures ScreenFits(Next(s, l).ui)
  {
    match l {
      case TakeRequest =>
      case TakeEvent =>
      case ExecuteNext =>
      case ScanEnds(_, _) =>
      case Press(btn) => PressKeepsScreen(s.ui, btn);
      case SendRequest =>
      case ShowEvent =>
        ShowAgrees(s);
        ShowKeepsScreen(s.ui, s.published[0]);
      case _ => WorkerLeavesUi(s, l);
    }
  }

  // ─── Runs ──────────────────────────────────────────────────────────────────

  lemma {:induction false} RunKeepsScreen(peers: seq<Device>, run: seq<State>, labels: seq<Label>, n: nat)
    requires IsRun(peers, run, labels) && n < |run|
    ensures ScreenFits(run[n].ui) && RequestsFit(run[n])
  {
    if n > 0 {
      RunKeepsScreen(peers, run, labels, n - 1);
      RunKeepsInvariant(peers, run, labels, n - 1);
      RunKeepsAgreement(peers, run, labels, n - 1);
      StepKeepsScreen(run[n - 1], labels[n - 1]);
      StepKeepsRequests(run[n - 1], labels[n - 1]);
    }
  }

  /** A drained UI shows a connection exactly if a slot is connected. */
  lemma DrainedFlagIsTrue(peers: seq<Device>, run: seq<State>, labels: seq<Label>, n: nat)
    requires IsRun(peers, run, labels) && n < |run|
    requires Stream(run[n]) == []
    ensures run[n].ui.view.bleConnected <==> C.ActiveCount(run[n].table) > 0
    ensures run[n].ui.view.connectedName == LinkText(run[n].table)
  {
    RunKeepsAgreement(peers, run, labels, n);
  }

  /** A settled slot has a live link exactly if its worker runs one, and is named after its device. */
  lemma SettledSlotIsNamed(peers: seq<Device>, run: seq<State>, labels: seq<Label>, n: nat, i: nat)
    requires IsRun(peers, run, labels) && n < |run| && i < MAX_CONNECTIONS
    ensures IsSized(run[n])
    ensures var s := run[n]; IsSettled(s, i) ==>
              && s.table[i].connected == s.workers[i].phase.Running?
              && (s.table[i].connected ==> s.table[i].name == s.workers[i].phase.device.name)
  {
    SettledSlotAgrees(peers, run, labels, n, i);
  }

  /**
   From radio to screen: once both slots are settled and all events shown, the UI shows a
   connection exactly if some worker has a live link, under the name of the only device or as two.
   */
  lemma DrainedTextIsTrue(peers: seq<Device>, run: seq<State>, labels: seq<Label>, n: nat)
    requires IsRun(peers, run, labels) && n < |run| && Stream(run[n]) == []
    ensures IsSized(run[n])
    ensures IsSettled(run[n], 0) && IsSettled(run[n], 1) ==>
              var v, a, b := run[n].ui.view, run[n].workers[0].phase, run[n].workers[1].phase;
              && (v.bleConnected <==> a.Running? || b.Running?)
              && v.connectedName == if a.Running? && b.Running? then "2 devices"
                                    else if a.Running? then a.device.name
                                    else if b.Running? then b.device.name else ""
  {
    DrainedFlagIsTrue(peers, run, labels, n);
    SettledSlotIsNamed(peers, run, labels, n, 0);
    SettledSlotIsNamed(peers, run, labels, n, 1);
    C.SummaryMeaning(run[n].table);
  }

  // ─── A scan on the screen ──────────────────────────────────────────────────

  function ShowAll(v: U.View, events: seq<U.BleEvent>): U.View
    decreases |events|
  {
    if events == [] then v else ShowAll(U.Shown(v, events[0]), events[1..])
  }

  lemma {:induction false} ShowConcat(v: U.View, x: seq<U.BleEvent>, y: seq<U.BleEvent>)
    ensures ShowAll(v, x + y) == ShowAll(ShowAll(v, x), y)
    decreases |x|
  {
    if x == [] {
      assert x + y == y;
    } else {
      assert (x + y)[0] == x[0] && (x + y)[1..] == x[1..] + y;
      ShowConcat(U.Shown(v, x[0]), x[1..], y);
    }
  }

  /** The rows changed and nothing else. */
  ghost predicate OnlyRows(v: U.View, v': U.View) {
    && v'.screen == v.screen && v'.selected == v.selected
    && v'.connectedName == v.connectedName && v'.bleConnected == v.bleConnected
  }

  lemma RowAdded(v: U.View, listed: seq<Device>, d: Device)
    requires Shows(v, listed) && |listed| < U.MAX_LISTED
    ensures var v' := U.Shown(v, U.DeviceFound(d)); Shows(v', listed + [d]) && OnlyRows(v, v')
  {}

  lemma OnlyRowsTwice(v: U.View, v': U.View, v'': U.View)
    requires OnlyRows(v, v') && OnlyRows(v', v'')
    ensures OnlyRows(v, v'')
  {}

  /** The rows from `k` on, shown one by one behind the others, complete the list. */
  lemma {:induction false} RowsListed(v: U.View, all: seq<Device>, k: nat)
    requires k <= |all| <= U.MAX_LISTED && Shows(v, all[..k])
    ensures var v' := ShowAll(v, Upcoming(Found(all[k..]))); Shows(v', all) && OnlyRows(v, v')
    decreases |all| - k
  {
    if k == |all| {
      assert all[..k] == all && all[k..] == [];
    } else {
      var next := U.Shown(v, U.DeviceFound(all[k]));
      UpcomingFoundFirst(all[k..]);
      assert all[k..][1..] == all[k + 1..] && all[..k] + [all[k]] == all[..k + 1];
      RowAdded(v, all[..k], all[k]);
      RowsListed(next, all, k + 1);
      OnlyRowsTwice(v, next, ShowAll(next, Upcoming(Found(all[k + 1..]))));
    }
  }

  lemma ShowOne(v: U.View, e: U.BleEvent)
    ensures ShowAll(v, [e]) == U.Shown(v, e)
  {
    assert [e][1..] == [];
  }

  /**
   Whatever was on the screen, a scan that found devices leaves their names in order with the
   first one selected, and a scan that found none or failed leaves the error screen; the
   connection shown is not touched.
   */
  lemma ScanIsShown(v: U.View, result: Option<seq<Device>>)
    requires IsScanResult(result)
    ensures var shown := ShowAll(v, [U.ScanStarted] + Upcoming(ScanReport(result)));
            && shown.connectedName == v.connectedName && shown.bleConnected == v.bleConnected
            && Shows(shown, Remembered(result)) && shown.selected == 0
            && shown.screen == if result.Some? && result.value != [] then U.DeviceList else U.Error
  {
    var started := U.Shown(v, U.ScanStarted);
    ShowOne(v, U.ScanStarted);
    ShowConcat(v, [U.ScanStarted], Upcoming(ScanReport(result)));
    match result {
      case Some(ds) =>
        var listed := ShowAll(started, Upcoming(Found(ds)));
        RowsListed(started, ds, 0);
        assert ds[0..] == ds;
        PublishOne(U.ScanComplete);
        UpcomingConcat(Found(ds), [Publish(U.ScanComplete)]);
        ShowConcat(started, Upcoming(Found(ds)), [U.ScanComplete]);
        ShowOne(listed, U.ScanComplete);
      case None =>
        PublishOne(U.Failed(C.ScanFailed));
        ShowOne(started, U.Failed(C.ScanFailed));
    }
  }

  function LastStatus(before: bool, events: seq<U.BleEvent>): bool
    decreases |events|
  {
    if events == [] then before
    else LastStatus(if events[0].LinkUp? then true else if events[0].AllDown? then false else before, events[1..])
  }

  lemma {:induction false} LinkedIsLastStatus(b: Belief, events: seq<U.BleEvent>)
    ensures FollowAll(b, events).linked == LastStatus(b.linked, events)
    decreases |events|
  {
    if events != [] {
      LinkedIsLastStatus(Follow(b, events[0]), events[1..]);
    }
  }

  /**
   The most recent status event, shown, queued or about to be published, is AllDown (or there
   was none) exactly if no slot is connected.
   */
  lemma LastStatusIsTrue(peers: seq<Device>, run: seq<State>, labels: seq<Label>, n: nat)
    requires IsRun(peers, run, labels) && n < |run|
    ensures LastStatus(run[n].ui.view.bleConnected, Stream(run[n])) <==> C.ActiveCount(run[n].table) > 0
  {
    RunKeepsAgreement(peers, run, labels, n);
    LinkedIsLastStatus(BeliefOf(run[n].ui), Stream(run[n]));
  }

  /** On the device list the selection is a row, and there are as many rows as the count says. */
  lemma SelectionIsARow(peers: seq<Device>, run: seq<State>, labels: seq<Label>, n: nat)
    requires IsRun(peers, run, labels) && n < |run|
    ensures var v := run[n].ui.view;
            v.screen.DeviceList? ==> v.selected < v.deviceCount == |v.devices| <= U.MAX_LISTED
  {
    RunKeepsScreen(peers, run, labels, n);
  }

  /**
   What a press sends: a scan for Select on the home, error and connected screens, a Connect of the
   selected row for Select on the list, a disconnection for Down on the connected screen, and
   nothing otherwise. What was sent is queued behind everything sent before.
   */
  lemma PressSends(s: State, btn: U.ButtonEvent)
    requires Enabled(s, Press(btn))
    ensures var screen, sent := s.ui.view.screen, Next(s, Press(btn)).ui.sending;
            && (sent.Some? && sent.value.command == U.StartScan
                <==> btn.Select? && screen in {U.Home, U.Error, U.Connected})
            && (sent.Some? && sent.value.command == U.Connect(s.ui.view.selected) <==> btn.Select? && screen.DeviceList?)
            && (sent.Some? && sent.value.command == U.Disconnect <==> btn.Down? && screen.Connected?)
            && (sent.Some? ==> sent.value.command in {U.StartScan, U.Connect(s.ui.view.selected), U.Disconnect})
            && Next(s, Press(btn)).requests == s.requests
    ensures var t := Next(s, Press(btn));
            t.ui.sending.Some? && Enabled(t, SendRequest) ==>
              Next(t, SendRequest).requests == s.requests + [t.ui.sending.value] && Next(t, SendRequest).ui.sending.None?
  {}

  /** Selecting a row sends its index and, as history, the device displayed in it. */
  lemma SelectPicksTheRow(peers: seq<Device>, run: seq<State>, labels: seq<Label>, n: nat)
    requires IsRun(peers, run, labels) && n < |labels|
    requires labels[n] == Press(U.Select) && run[n].ui.view.screen.DeviceList?
    ensures var v, sent := run[n].ui.view, run[n + 1].ui.sending;
            && sent.Some? && sent.value.command == U.Connect(v.selected) && sent.value.scan == run[n].ui.seen
            && sent.value.picked.Some? && v.selected < |v.devices|
            && sent.value.picked.value.name == v.devices[v.selected]
  {
    RunKeepsScreen(peers, run, labels, n);
  }

  /**
   When a Connect is dequeued and no scan has started beyond those the user had seen when
   picking, the coordinator acts on the very device in that row: it reserves the first free slot
   for it and plans to tell its worker, if a slot is free and the address is not held already.
   */
  lemma PickedDeviceIsReserved(peers: seq<Device>, run: seq<State>, labels: seq<Label>, n: nat)
    requires IsRun(peers, run, labels) && n < |labels| && labels[n] == TakeRequest
    requires run[n].requests[0].command.Connect? && run[n].requests[0].scan == run[n].scans
    ensures var s, s', q := run[n], run[n + 1], run[n].requests[0];
            && q.command.index < |s.lastScan| && q.picked == Some(s.lastScan[q.command.index])
            && (!C.Holds(s.table, q.picked.value.address) && !C.AllTaken(s.table) ==>
                  exists i: nat ::
                    && C.IsFirstFree(s.table, i) && C.ReservesFor(s.table, s'.table, i, q.picked.value)
                    && i < |s'.epochs| && Planned(s'.todo, i) == [Connect(q.picked.value, s'.epochs[i])])
  {
    var s, s', q := run[n], run[n + 1], run[n].requests[0];
    RunKeepsScreen(peers, run, labels, n);
    assert RequestFits(q, s.ui.seen, Truth(s));
    if !C.Holds(s.table, q.picked.value.address) && !C.AllTaken(s.table) {
      RunKeepsInvariant(peers, run, labels, n);
      ConnectPlans(s);
    }
  }

  /** A Connect that is granted reserves the first free slot and is planned for it. */
  lemma ConnectPlans(s: State)
    requires WithinBounds(s) && s.requests != [] && s.requests[0].command.Connect?
    requires s.requests[0].command.index < |s.lastScan|
    requires !C.Holds(s.table, s.lastScan[s.requests[0].command.index].address) && !C.AllTaken(s.table)
    ensures var s', d := OnRequest(s), s.lastScan[s.requests[0].command.index];
            exists i: nat :: && C.IsFirstFree(s.table, i) && C.ReservesFor(s.table, s'.table, i, d)
                             && i < |s'.epochs| && Planned(s'.todo, i) == [Connect(d, s'.epochs[i])]
  {
    var s', index := OnRequest(s), s.requests[0].command.index;
    var d := s.lastScan[index];
    C.ConnectMeaning(s.table, s.lastScan, index);
    var i: nat :| && C.IsFirstFree(s.table, i) && C.ReservesFor(s.table, s'.table, i, d)
                  && C.PlanConnect(s.table, s.lastScan, index).1 == [C.ConnectSlot(i, d)];
    StampedOne(C.ConnectSlot(i, d), s'.epochs);
    assert s'.todo == [Do(C.ConnectSlot(i, d), s'.epochs[i])] && s'.todo[1..] == [];
    assert Planned(s'.todo, i) == [Connect(d, s'.epochs[i])];
  }
}
