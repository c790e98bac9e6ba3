/**
 The screen can freeze: a pick whose address a slot holds already is ignored without a word, and
 the UI, which went to Scanning with the pick, leaves that screen only with an event.
 */
module Freeze {
  import opened Types
  import opened Scanner
  import opened Reconnect
  import opened Protocol
  import opened SlotInvariant
  import opened SlotRuns
  import opened SlotTheorems
  import opened Traces
  import opened Moves
  import opened UiRuns
  import T = UiTheorems
  import opened StaleRow
  import C = Coordinator
  import U = Ui

  // ─── Why the UI is on the scanning screen ──────────────────────────────────

  /** On the scanning screen although no scan is being listed. */
  predicate Waits(ui: UiTask) {
    ui.view.screen.Scanning? && !ui.inScan
  }

  predicate IsPick(q: Request) {
    !q.command.Disconnect?
  }

  /** State `was` was about to take a Connect of a row that the list has. */
  predicate TakesRow(was: State) {
    && was.requests != [] && was.requests[0].command.Connect?
    && was.requests[0].command.index < |was.lastScan|
  }

  function RowTaken(was: State): Device
    requires TakesRow(was)
  {
    was.lastScan[was.requests[0].command.index]
  }

  /** The Connect that state `was` was about to take was ignored: its address was held. */
  predicate WasIgnored(was: State) {
    TakesRow(was) && C.Holds(was.table, RowTaken(was).address)
  }

  /** That Connect reserved slot `i`, the first free one, which `s` still holds for it. */
  ghost predicate IsTryingIn(was: State, s: State, i: nat) {
    && TakesRow(was) && !C.Holds(was.table, RowTaken(was).address) && C.IsFirstFree(was.table, i)
    && i < |was.epochs| && i < |s.epochs|
    && s.table[i] == C.Connecting(RowTaken(was)) && s.epochs[i] == was.epochs[i] + 1
  }

  ghost predicate IsTrying(was: State, s: State) {
    exists i :: IsTryingIn(was, s, i)
  }

  /** Nothing asked for is on its way to the coordinator. */
  predicate NothingAsked(s: State) {
    s.ui.sending.None? && s.requests == []
  }

  /**
   A waiting UI has a scan or pick on its way to the coordinator, or an event or a scan to come;
   or else the last request taken, in state `was`, was a pick that was ignored or is still tried.
   */
  ghost predicate Explained(s: State, was: Option<State>) {
    Waits(s.ui) ==>
      || (s.ui.sending.Some? && IsPick(s.ui.sending.value))
      || (s.ui.sending.None? && s.requests != [] && IsPick(s.requests[|s.requests| - 1]))
      || Stream(s) != [] || ScanPending(s.todo)
      || (NothingAsked(s) && was.Some? && (WasIgnored(was.value) || IsTrying(was.value, s)))
  }

  lemma PressExplained(s: State, btn: U.ButtonEvent, was: Option<State>)
    requires Explained(s, was) && Enabled(s, Press(btn))
    ensures Explained(Next(s, Press(btn)), was)
  {
    U.ButtonMeaning(s.ui.view.screen, btn, s.ui.view.selected, s.ui.view.deviceCount);
    if was.Some? {
      SameTrying(was.value, s, Next(s, Press(btn)));
    }
  }

  lemma SendExplained(s: State, was: Option<State>)
    requires Explained(s, was) && Enabled(s, SendRequest)
    ensures Explained(Next(s, SendRequest), was)
  {}

  /** Whatever is shown ends the wait. */
  lemma ShowExplained(s: State)
    requires Agrees(s) && T.ScreenFits(s.ui) && Enabled(s, ShowEvent)
    ensures !Waits(Next(s, ShowEvent).ui)
  {
    ShowAgrees(s);
  }

  /** The last request, a Connect, is refused aloud, ignored, or given a slot. */
  lemma ConnectExplained(s: State)
    requires WithinBounds(s) && s.todo == [] && |s.requests| == 1 && s.requests[0].command.Connect?
    ensures Upcoming(OnRequest(s).todo) != [] || WasIgnored(s) || IsTrying(s, OnRequest(s))
  {
    var s', index := OnRequest(s), s.requests[0].command.index;
    C.ConnectMeaning(s.table, s.lastScan, index);
    ConnectOutcome(s.table, s.lastScan, index, s'.epochs);
    if TakesRow(s) && !WasIgnored(s) && !C.AllTaken(s.table) {
      C.FindEmptyMeaning(s.table);
      assert IsTryingIn(s, s', C.FindEmpty(s.table).value);
    }
  }

  lemma TakeExplained(s: State, was: Option<State>)
    requires WithinBounds(s) && Explained(s, was) && Enabled(s, TakeRequest)
    ensures Explained(OnRequest(s), Some(s))
  {
    var s' := OnRequest(s);
    assert Stream(s) == s.published && s'.requests == s.requests[1..];
    if s.ui.sending.None? && |s.requests| == 1 {
      match s.requests[0].command {
        case StartScan => StartScanWork(s.table, s.epochs);
        case Connect(_) => ConnectExplained(s);
        case Disconnect =>
      }
    }
  }

  lemma EventExplained(s: State)
    requires WithinBounds(s) && Enabled(s, TakeEvent)
    ensures Stream(OnEvent(s)) != []
  {
    assert s.events[0] in s.events;
    EventWork(s.table, s.events[0], s.epochs);
  }

  lemma ScanEndExplained(s: State, l: Label)
    requires l.ScanEnds? && Enabled(s, l) && Agrees(s)
    ensures Stream(Next(s, l)) != []
  {
    assert s.todo[1..] == [];
    AfterScanUpcoming(s.todo[0], l.result, l.resolved);
    assert Next(s, l).todo == AfterScan(s.todo[0], l.result, l.resolved);
    if l.result.Some? {
      UpcomingConcat(Found(l.result.value), [Publish(U.ScanComplete)]);
      PublishOne(U.ScanComplete);
    } else {
      PublishOne(U.Failed(C.ScanFailed));
    }
  }

  /** Boot does not take the slot of a pick. */
  lemma ExecuteKeepsTrying(s: State, was: State)
    requires Invariant(s) && Enabled(s, ExecuteNext) && IsTrying(was, s)
    ensures IsTrying(was, Execute(s))
  {
    var i :| IsTryingIn(was, s, i);
    if s.todo[0].BootReserve? {
      assert LocalInvariant(s.todo[0].slot, ViewOf(s, s.todo[0].slot));
      assert s.table[s.todo[0].slot] == C.FREE;
    }
    assert IsTryingIn(was, Execute(s), i);
  }

  lemma ExecuteExplained(s: State, was: Option<State>)
    requires Invariant(s) && Agrees(s) && Explained(s, was) && Enabled(s, ExecuteNext)
    ensures Explained(Execute(s), was)
  {
    BootReservesFree(s);
    ExecuteKeepsStream(s);
    ExecuteKeepsTruth(s);
    assert Truth(s).inScan == ScanPending(s.todo) && Truth(Execute(s)).inScan == ScanPending(Execute(s).todo);
    assert Execute(s).ui == s.ui && Execute(s).requests == s.requests;
    if was.Some? && IsTrying(was.value, s) {
      ExecuteKeepsTrying(s, was.value);
    }
  }

  lemma WorkerExplained(s: State, l: Label, was: Option<State>)
    requires IsWorkerLabel(l) && Enabled(s, l) && Explained(s, was)
    ensures Explained(NextWorker(s, l), was)
  {
    var s' := NextWorker(s, l);
    WorkerLeavesUi(s, l);
    assert s'.epochs == s.epochs && Stream(s') == Stream(s);
    if was.Some? {
      SameTrying(was.value, s, s');
    }
  }

  lemma SameTrying(was: State, s: State, s': State)
    requires s'.table == s.table && s'.epochs == s.epochs
    ensures IsTrying(was, s) ==> IsTrying(was, s')
  {
    if i :| IsTryingIn(was, s, i) {
      assert IsTryingIn(was, s', i);
    }
  }

  lemma StepExplained(s: State, l: Label, was: Option<State>)
    requires Invariant(s) && Agrees(s) && T.ScreenFits(s.ui) && Explained(s, was) && Enabled(s, l)
    ensures Explained(Next(s, l), if l.TakeRequest? then Some(s) else was)
  {
    match l {
      case TakeRequest => TakeExplained(s, was);
      case TakeEvent => EventExplained(s);
      case ExecuteNext => ExecuteExplained(s, was);
      case ScanEnds(_, _) => ScanEndExplained(s, l);
      case Press(btn) => PressExplained(s, btn, was);
      case SendRequest => SendExplained(s, was);
      case ShowEvent => ShowExplained(s);
      case _ => WorkerExplained(s, l, was);
    }
  }

  // ─── Over every run ────────────────────────────────────────────────────────

  /** The place of the last request taken before state `n`, or -1. */
  function LastTake(labels: seq<Label>, n: nat): (m: int)
    requires n <= |labels|
    ensures -1 <= m < n
    ensures m >= 0 ==> labels[m].TakeRequest?
    ensures forall k | m < k < n :: !labels[k].TakeRequest?
  {
    if n == 0 then -1 else if labels[n - 1].TakeRequest? then n - 1 else LastTake(labels, n - 1)
  }

  function AtLastTake(run: seq<State>, labels: seq<Label>, n: nat): Option<State>
    requires n <= |labels| && |run| == |labels| + 1
  {
    var m := LastTake(labels, n);
    if m < 0 then None else Some(run[m])
  }

  lemma {:induction false} RunExplained(peers: seq<Device>, run: seq<State>, labels: seq<Label>, n: nat)
    requires IsRun(peers, run, labels) && n < |run|
    ensures Explained(run[n], AtLastTake(run, labels, n))
  {
    if n > 0 {
      RunExplained(peers, run, labels, n - 1);
      RunKeepsInvariant(peers, run, labels, n - 1);
      RunKeepsAgreement(peers, run, labels, n - 1);
      T.RunKeepsScreen(peers, run, labels, n - 1);
      StepExplained(run[n - 1], labels[n - 1], AtLastTake(run, labels, n - 1));
    }
  }

  /**
   When the UI is on the scanning screen and nothing is asked for, planned or published, the last
   request taken was a pick, and it was ignored or the slot it reserved is still connecting for it.
   */
  lemma ScanningMeansPick(peers: seq<Device>, run: seq<State>, labels: seq<Label>, n: nat)
    requires IsRun(peers, run, labels) && n < |run|
    requires var s := run[n]; s.ui.view.screen.Scanning? && NothingAsked(s) && s.todo == [] && s.published == []
    ensures var m := LastTake(labels, n); m >= 0 && (WasIgnored(run[m]) || IsTrying(run[m], run[n]))
  {
    RunKeepsAgreement(peers, run, labels, n);
    RunExplained(peers, run, labels, n);
    assert Stream(run[n]) == [];
  }

  // ─── The freeze ────────────────────────────────────────────────────────────

  /** On the scanning screen with every channel empty and every worker idle or on a live link. */
  ghost predicate IsFrozen(s: State) {
    && IsSized(s) && s.ui.view.screen.Scanning? && NothingAsked(s)
    && s.todo == [] && s.published == [] && s.events == []
    && forall i: nat | i < MAX_CONNECTIONS :: s.commands[i] == [] && AtRest(s.workers[i])
  }

  predicate AtRest(w: Worker) {
    w.pending.None? && (w.phase.Idle? || w.phase.Running?)
  }

  /** Nothing is enabled but presses, which change nothing, and the loss of a live link. */
  lemma FrozenSteps(s: State, l: Label)
    requires IsFrozen(s)
    ensures Enabled(s, l) <==> l.Press? || (l.LinkLost? && l.i < MAX_CONNECTIONS && s.workers[l.i].phase.Running?)
    ensures l.Press? ==> Next(s, l) == s
  {
    if IsWorkerLabel(l) && l.i < MAX_CONNECTIONS {
      assert s.commands[l.i] == [] && AtRest(s.workers[l.i]);
    }
    if l.Press? {
      assert UiPressed(s.ui, l.btn) == s.ui;
    }
  }

  /** Whatever the user presses, however often, the state stays as it is while no link is lost. */
  lemma {:induction false} FrozenUntilLinkLost(s: State, labels: seq<Label>)
    requires IsFrozen(s) && After(Step, s, labels).Some? && forall l | l in labels :: !l.LinkLost?
    ensures After(Step, s, labels).value == s
  {
    forall t, l: Label | t == s && !l.LinkLost? && Step(t, l).Some?
      ensures Step(t, l).value == s
    {
      FrozenSteps(s, l);
    }
    AfterKeeps(Step, t => t == s, (l: Label) => !l.LinkLost?, s, labels);
  }

  /** At rest no slot is connecting. */
  lemma FrozenConnectsNothing(peers: seq<Device>, run: seq<State>, labels: seq<Label>, n: nat, i: nat)
    requires IsRun(peers, run, labels) && n < |run| && IsFrozen(run[n]) && i < MAX_CONNECTIONS
    ensures !run[n].table[i].connecting
  {
    assert run[n].commands[i] == [] && AtRest(run[n].workers[i]);
    assert IsSettled(run[n], i);
    SettledSlotAgrees(peers, run, labels, n, i);
  }

  /** A run gets there only by an ignored pick. */
  lemma FrozenMeansIgnored(peers: seq<Device>, run: seq<State>, labels: seq<Label>, n: nat)
    requires IsRun(peers, run, labels) && n < |run| && IsFrozen(run[n])
    ensures LastTake(labels, n) >= 0 && WasIgnored(run[LastTake(labels, n)])
  {
    ScanningMeansPick(peers, run, labels, n);
    var was := run[LastTake(labels, n)];
    if i :| IsTryingIn(was, run[n], i) {
      FrozenConnectsNothing(peers, run, labels, n, i);
    }
  }

  // ─── A run into it ─────────────────────────────────────────────────────────

  /** Nothing is under way and the user can ask for a scan, which disturbs no link. */
  ghost predicate CanScan(s: State) {
    && NothingAsked(s) && s.todo == [] && s.published == [] && s.events == []
    && (s.ui.view.screen.Home? || s.ui.view.screen.Connected?) && !C.IsOccupied(s.table[1])
  }

  lemma ScanAsked(s: State) returns (t: State)
    requires CanScan(s)
    ensures Reaches(s, t) && t.ui.sending.None?
    ensures t == s.(ui := t.ui, scans := s.scans + 1, todo := [Publish(U.ScanStarted), Scan])
  {
    Presses(s, U.Select);
    var s1 := s.(ui := UiPressed(s.ui, U.Select));
    Sends(s1);
    var q := s1.ui.sending.value;
    var s2 := s1.(requests := [q], ui := s1.ui.(sending := None));
    assert s1.requests + [q] == [q];
    ReachesTwo(s, s1, s2);
    t := ScanBegins(s2);
    ReachesTwo(s, s2, t);
    assert t.requests == [];
  }

  /** The user asks for a scan, which finds `d`. */
  lemma ScansAndLists(s: State, d: Device) returns (t: State)
    requires CanScan(s)
    ensures Reaches(s, t) && t == s.(ui := t.ui, scans := t.scans, lastScan := [d])
    ensures t.ui.view.screen == U.DeviceList && t.ui.view.selected == 0 && t.ui.listed == [d] && t.ui.sending.None?
  {
    var s1 := ScanAsked(s);
    ScanFinds(s1, d);
    var s2 := s1.(todo := [], lastScan := [d], published := [U.ScanStarted, U.DeviceFound(d), U.ScanComplete]);
    ReachesTwo(s, s1, s2);
    t := ListShown(s2, d);
    ReachesTwo(s, s2, t);
  }

  /** And then picks it. */
  lemma ScansAndPicks(s: State, d: Device) returns (t: State)
    requires CanScan(s)
    ensures Reaches(s, t) && t.ui.view.screen.Scanning? && t.ui.sending.None?
    ensures |t.requests| == 1 && t.requests[0].command == U.Connect(0)
    ensures t == s.(ui := t.ui, scans := t.scans, lastScan := [d], requests := t.requests)
  {
    var u := ScansAndLists(s, d);
    t := PicksFirst(u, d);
    ReachesTwo(s, u, t);
  }

  /** The first request is granted: slot 0 is reserved and its worker told. */
  lemma PickGranted(s: State, d: Device)
    requires IsSized(s) && s.todo == [] && s.lastScan == [d] && s.table == [C.FREE, C.FREE]
    requires |s.requests| == 1 && s.requests[0].command == U.Connect(0)
    requires s.commands == [[], []] && s.epochs == [0, 0]
    ensures Reaches(s, s.(requests := [], table := [C.Connecting(d), C.FREE], epochs := [1, 0],
                          commands := [[Connect(d, 1)], []]))
  {
    var action, queue := C.ConnectSlot(0, d), [[Connect(d, 1)], []];
    var s1 := s.(requests := [], table := [C.Connecting(d), C.FREE], epochs := [1, 0], todo := [Do(action, 1)]);
    assert s.table[0 := C.Connecting(d)] == s1.table && s.epochs[0 := 1] == s1.epochs && s.requests[1..] == [];
    StampedOne(action, s1.epochs);
    assert Next(s, TakeRequest) == s1;
    ReachesStep(s, TakeRequest);
    assert s1.todo[1..] == [] && s1.commands[0] + [Connect(d, 1)] == queue[0];
    assert s1.commands[0 := queue[0]] == queue;
    Then(s, s1, ExecuteNext);
  }

  /** The worker of slot 0 establishes the link and says so. */
  lemma LinkEstablished(s: State, d: Device)
    requires s.commands == [[Connect(d, 1)], []] && s.workers == [IDLE, IDLE] && s.events == []
    ensures Reaches(s, s.(commands := [[], []], workers := [Worker(Running(d, 1), None), IDLE],
                          events := [Connected(0, d)]))
  {
    var s1 := s.(commands := [[], []], workers := [Worker(Establishing(d, 1), None), IDLE]);
    assert [Connect(d, 1)][1..] == [];
    assert Next(s, TakeCommand(0)) == s1;
    ReachesStep(s, TakeCommand(0));
    var s2 := s1.(workers := [Worker(Announcing(d, 1), None), IDLE]);
    assert Next(s1, LinkMade(0)) == s2;
    Then(s, s1, LinkMade(0));
    var s3 := s2.(workers := [Worker(Running(d, 1), None), IDLE], events := [Connected(0, d)]);
    assert Next(s2, Announce(0)) == s3;
    Then(s, s2, Announce(0));
  }

  /** The coordinator hears of the link and publishes it. */
  lemma LinkPublished(s: State, d: Device, up: C.UiEvent)
    requires s.events == [Connected(0, d)] && s.table == [C.Connecting(d), C.FREE]
    requires s.todo == [] && s.published == [] && up == C.LinkUp(C.Summary([C.Connected(d), C.FREE]))
    ensures Reaches(s, s.(events := [], table := [C.Connected(d), C.FREE], published := [ToBle(up)]))
  {
    var table, persist := [C.Connected(d), C.FREE], C.PersistDevice(d);
    var s1 := s.(events := [], table := table, todo := [Do(persist, 0), Do(C.Emit(up), 0)]);
    assert s.table[0 := C.Connected(d)] == table && s.events[1..] == [];
    assert [persist] + [C.Emit(up)] == [persist, C.Emit(up)];
    StampedCons(persist, [C.Emit(up)], s.epochs);
    StampedOne(C.Emit(up), s.epochs);
    assert Next(s, TakeEvent) == s1;
    ReachesStep(s, TakeEvent);
    var s2 := s1.(todo := [Do(C.Emit(up), 0)]);
    assert s1.todo[1..] == s2.todo;
    Then(s, s1, ExecuteNext);
    assert s2.todo[1..] == [] && s2.published + [ToBle(up)] == [ToBle(up)];
    Then(s, s2, ExecuteNext);
  }

  lemma LinkShown(s: State, d: Device) returns (t: State)
    requires s.events == [Connected(0, d)] && s.table == [C.Connecting(d), C.FREE]
    requires s.todo == [] && s.published == [] && s.ui.sending.None?
    ensures Reaches(s, t) && t.ui.view.screen.Connected? && t.ui.sending.None?
    ensures t == s.(events := [], table := [C.Connected(d), C.FREE], ui := t.ui)
  {
    var up := C.LinkUp(C.Summary([C.Connected(d), C.FREE]));
    LinkPublished(s, d, up);
    var s1 := s.(events := [], table := [C.Connected(d), C.FREE], published := [ToBle(up)]);
    assert s1.published == [ToBle(up)] + [];
    Shows(s1, ToBle(up), []);
    t := s1.(published := [], ui := UiShown(s1.ui, ToBle(up)));
    ReachesTwo(s, s1, t);
  }

  /** The user connects to `d`. */
  lemma UserConnects(d: Device) returns (t: State)
    ensures Reaches(Initial([]), t) && CanScan(t) && IsSized(t)
    ensures t.table == [C.Connected(d), C.FREE] && t.commands == [[], []]
    ensures t.workers == [Worker(Running(d, 1), None), IDLE]
  {
    var start := Initial([]);
    var s := ScansAndPicks(start, d);
    PickGranted(s, d);
    var s1 := s.(requests := [], table := [C.Connecting(d), C.FREE], epochs := [1, 0], commands := [[Connect(d, 1)], []]);
    ReachesTwo(start, s, s1);
    LinkEstablished(s1, d);
    var s2 := s1.(commands := [[], []], workers := [Worker(Running(d, 1), None), IDLE], events := [Connected(0, d)]);
    ReachesTwo(start, s1, s2);
    t := LinkShown(s2, d);
    ReachesTwo(start, s2, t);
  }

  /** A pick of a held address is dropped. */
  lemma PickIgnored(s: State, d: Device)
    requires s.todo == [] && s.lastScan == [d] && |s.requests| == 1 && s.requests[0].command == U.Connect(0)
    requires C.AddressInUse(s.table, d.address)
    ensures Reaches(s, s.(requests := []))
  {
    ReachesStep(s, TakeRequest);
    assert C.PlanConnect(s.table, s.lastScan, 0) == (s.table, []);
    assert Next(s, TakeRequest) == s.(requests := []);
  }

  /** With `d` connected, the user scans again and picks it again. */
  lemma PicksAgain(s: State, d: Device) returns (t: State)
    requires CanScan(s) && s.table == [C.Connected(d), C.FREE]
    ensures Reaches(s, t) && NothingAsked(t) && t.ui.view.screen.Scanning?
    ensures t == s.(ui := t.ui, scans := t.scans, lastScan := [d])
  {
    var u := ScansAndPicks(s, d);
    assert C.IsOccupied(u.table[0]) && u.table[0].address == Some(d.address);
    PickIgnored(u, d);
    t := u.(requests := []);
    ReachesTwo(s, u, t);
  }

  /**
   The freeze is real: the user connects to a device, asks for another scan, the scan lists the
   device again because it still advertises, and the user picks it.
   */
  lemma FreezeIsReachable(d: Device)
    ensures exists run, labels :: IsRun([], run, labels) && IsFrozen(run[|labels|])
  {
    var s := UserConnects(d);
    var t := PicksAgain(s, d);
    ReachesTwo(Initial([]), s, t);
    assert IsFrozen(t);
    ReachedByRun([], t);
  }
}
