/**
 The coordinator task, the two slot workers and the UI task as one step machine over the
 bounded FIFO channels that connect them. A label names one atomic step of one task and
 carries what the environment decides (scan results, link outcomes, button presses); a
 task blocked on a full or empty channel has no enabled label.
 */
module Protocol {
  import opened Types
  import opened Scanner
  import opened Reconnect
  import C = Coordinator
  import U = Ui

  const SLOT_COMMANDS: nat := 2
  const SLOT_EVENTS: nat := 8
  const UI_REQUESTS: nat := 4
  const UI_EVENTS: nat := 8

  // ─── State ─────────────────────────────────────────────────────────────────

  /** A command to a slot worker; `epoch` is history: the occupancy it was issued for. */
  datatype SlotCommand = Connect(device: Device, epoch: nat) | Disconnect(epoch: nat)

  datatype SlotEvent =
    | Connected(slot: nat, device: Device)
    | Disconnected(slot: nat)
    | Error(slot: nat, tag: C.ErrorTag)

  /** How a connection attempt ended. */
  datatype Outcome = Closed | Failed(tag: C.ErrorTag) | Superseded(next: SlotCommand)

  /** Where a worker stands; `epoch` is history. */
  datatype Phase =
    | Idle                                                       // awaiting a command
    | Establishing(device: Device, epoch: nat)                   // commands are not read
    | Announcing(device: Device, epoch: nat)                     // link up, sending Connected
    | Running(device: Device, epoch: nat)                        // link up, racing commands
    | Ending(outcome: Outcome, device: Device, epoch: nat)       // link down, sending the last event

  datatype Worker = Worker(phase: Phase, pending: Option<SlotCommand>)

  /** What the coordinator task has still to do before it selects again. */
  datatype Op =
    | Do(action: C.Action, epoch: nat)       // execute_action
    | Publish(event: U.BleEvent)             // scanner: event_tx.send
    | Scan                                   // the radio scan of StartScan
    | BootScan(peers: seq<Device>)           // the radio scan of boot
    | BootReserve(slot: nat, device: Device) // boot: reserve, then send Connect
    | Remember(devices: seq<Device>)         // last_scan := ...

  /** A queued UI command. History: the device listed in the row the user picked, and in which scan. */
  datatype Request = Request(command: U.Command, picked: Option<Device>, scan: nat)

  /**
   The UI task: its loop variables and the command it is blocked on, if any. History: scans
   seen to start, whether one is being listed, and the devices listed since it started.
   */
  datatype UiTask = UiTask(
    view: U.View, sending: Option<Request>, seen: nat, inScan: bool, listed: seq<Device>)

  datatype State = State(
    table: C.Table,
    epochs: seq<nat>,
    todo: seq<Op>,
    lastScan: seq<Device>,
    scans: nat,
    commands: seq<seq<SlotCommand>>,
    events: seq<SlotEvent>,
    workers: seq<Worker>,
    requests: seq<Request>,
    published: seq<U.BleEvent>,
    ui: UiTask)

  const IDLE: Worker := Worker(Idle, None)

  /** After the store has been loaded; `peers` are its most recent devices, at most two. */
  function Initial(peers: seq<Device>): State {
    State(
      [C.FREE, C.FREE], [0, 0],
      if peers == [] then [] else [Publish(U.ScanStarted), BootScan(peers)],
      [], if peers == [] then 0 else 1,
      [[], []], [], [IDLE, IDLE], [], [],
      UiTask(U.START, None, 0, false, []))
  }

  // ─── Coordinator ───────────────────────────────────────────────────────────

  function EpochOf(a: C.Action, epochs: seq<nat>): nat {
    match a
    case DisconnectSlot(i) => if i < |epochs| then epochs[i] else 0
    case ConnectSlot(i, _) => if i < |epochs| then epochs[i] else 0
    case _ => 0
  }

  /** The actions in order, each stamped with the current occupancy of its slot. */
  function Stamped(actions: seq<C.Action>, epochs: seq<nat>): seq<Op> {
    if actions == [] then []
    else [Do(actions[0], EpochOf(actions[0], epochs))] + Stamped(actions[1..], epochs)
  }

  /** A reservation opens a new occupancy. */
  function Bumped(epochs: seq<nat>, actions: seq<C.Action>): seq<nat> {
    if actions != [] && actions[0].ConnectSlot? && actions[0].slot < |epochs|
    then epochs[actions[0].slot := epochs[actions[0].slot] + 1]
    else epochs
  }

  function OnRequest(s: State): State
    requires s.requests != []
  {
    var rest := s.(requests := s.requests[1..]);
    match s.requests[0].command
    case StartScan =>
      rest.(todo := Stamped(C.PlanStartScan(s.table), s.epochs) + [Publish(U.ScanStarted), Scan],
            scans := s.scans + 1)
    case Connect(index) =>
      var (table, actions) := C.PlanConnect(s.table, s.lastScan, index);
      var epochs := Bumped(s.epochs, actions);
      rest.(table := table, epochs := epochs, todo := Stamped(actions, epochs))
    case Disconnect =>
      rest.(todo := Stamped(C.PlanDisconnect(s.table), s.epochs))
  }

  function Reduced(t: C.Table, e: SlotEvent): (C.Table, seq<C.Action>) {
    match e
    case Connected(i, d) => C.OnConnected(t, i, d)
    case Disconnected(i) => C.OnDisconnected(t, i)
    case Error(i, tag) => C.OnError(t, i, tag)
  }

  function OnEvent(s: State): State
    requires s.events != []
  {
    var (table, actions) := Reduced(s.table, s.events[0]);
    s.(table := table, events := s.events[1..], todo := Stamped(actions, s.epochs))
  }

  function ToBle(e: C.UiEvent): U.BleEvent {
    match e
    case LinkUp(summary) => U.LinkUp(summary)
    case AllDown => U.AllDown
    case Failed(tag) => U.Failed(tag)
  }

  /** The command an operation sends to slot `i`, if any. */
  function CommandTo(op: Op, i: nat): Option<SlotCommand> {
    match op
    case Do(DisconnectSlot(j), e) => if i == j then Some(Disconnect(e)) else None
    case Do(ConnectSlot(j, d), e) => if i == j then Some(Connect(d, e)) else None
    case _ => None
  }

  /** The event an operation publishes, if any. */
  function EventOf(op: Op): Option<U.BleEvent> {
    match op
    case Do(Emit(e), _) => Some(ToBle(e))
    case Publish(e) => Some(e)
    case _ => None
  }

  predicate CanExecute(s: State, op: Op) {
    match op
    case Do(DisconnectSlot(i), _) => i < |s.commands| && |s.commands[i]| < SLOT_COMMANDS
    case Do(ConnectSlot(i, _), _) => i < |s.commands| && |s.commands[i]| < SLOT_COMMANDS
    case Do(Emit(_), _) => |s.published| < UI_EVENTS
    case Publish(_) => |s.published| < UI_EVENTS
    case BootReserve(i, _) => i < |s.table| && i < |s.epochs|
    case Scan => false
    case BootScan(_) => false
    case _ => true
  }

  function Execute(s: State): State
    requires s.todo != [] && CanExecute(s, s.todo[0])
  {
    var op := s.todo[0];
    var rest := s.(todo := s.todo[1..]);
    match op
    case Do(DisconnectSlot(i), e) => rest.(commands := s.commands[i := s.commands[i] + [Disconnect(e)]])
    case Do(ConnectSlot(i, d), e) => rest.(commands := s.commands[i := s.commands[i] + [Connect(d, e)]])
    case Do(Emit(e), _) => rest.(published := s.published + [ToBle(e)])
    case Publish(e) => rest.(published := s.published + [e])
    case BootReserve(i, d) =>
      var epochs := s.epochs[i := s.epochs[i] + 1];
      rest.(table := s.table[i := C.Connecting(d)], epochs := epochs,
            todo := [Do(C.ConnectSlot(i, d), epochs[i])] + s.todo[1..])
    case Remember(devices) => rest.(lastScan := devices)
    case _ => rest
  }

  function Found(devices: seq<Device>): seq<Op> {
    if devices == [] then [] else [Publish(U.DeviceFound(devices[0]))] + Found(devices[1..])
  }

  /** What a scan publishes once the radio part is over. */
  function ScanReport(result: Option<seq<Device>>): seq<Op> {
    match result
    case Some(devices) => Found(devices) + [Publish(U.ScanComplete)]
    case None => [Publish(U.Failed(C.ScanFailed))]
  }

  function Remembered(result: Option<seq<Device>>): seq<Device> {
    match result
    case Some(devices) => devices
    case None => []
  }

  function Reserves(devices: seq<Device>, i: nat): seq<Op>
    decreases |devices| - i
  {
    if i >= |devices| then [] else [BootReserve(i, devices[i])] + Reserves(devices, i + 1)
  }

  /** The operations that follow a radio scan. */
  function AfterScan(op: Op, result: Option<seq<Device>>, resolved: set<(int, int)>): seq<Op>
    requires op.Scan? || op.BootScan?
  {
    ScanReport(result)
    + (if op.BootScan? then Reserves(BootDevices(op.peers, Remembered(result), resolved), 0) else [])
    + [Remember(Remembered(result))]
  }

  // ─── Workers ───────────────────────────────────────────────────────────────

  function Obey(c: SlotCommand): Worker {
    match c
    case Connect(d, e) => Worker(Establishing(d, e), None)
    case Disconnect(_) => IDLE
  }

  function LastEvent(i: nat, o: Outcome): SlotEvent {
    match o
    case Failed(tag) => Error(i, tag)
    case _ => Disconnected(i)
  }

  /** A superseding Connect is processed next; a superseding Disconnect is done already. */
  function AfterReport(o: Outcome): Worker {
    if o.Superseded? && o.next.Connect? then Worker(Idle, Some(o.next)) else IDLE
  }

  function SetWorker(s: State, i: nat, w: Worker): State
    requires i < |s.workers|
  {
    s.(workers := s.workers[i := w])
  }

  // ─── UI task ───────────────────────────────────────────────────────────────

  function RequestFor(ui: UiTask, command: U.Command): Request {
    match command
    case Connect(i) => Request(command, if i < |ui.listed| then Some(ui.listed[i]) else None, ui.seen)
    case _ => Request(command, None, ui.seen)
  }

  function UiPressed(ui: UiTask, btn: U.ButtonEvent): UiTask {
    var (view, command) := U.Pressed(ui.view, btn);
    ui.(view := view, sending := if command.Some? then Some(RequestFor(ui, command.value)) else None)
  }

  function UiShown(ui: UiTask, e: U.BleEvent): UiTask {
    var shown := ui.(view := U.Shown(ui.view, e));
    match e
    case ScanStarted => shown.(seen := ui.seen + 1, inScan := true, listed := [])
    case DeviceFound(d) => shown.(listed := ui.listed + [d])
    case ScanComplete => shown.(inScan := false)
    case Failed(_) => shown.(inScan := false)
    case _ => shown
  }

  // ─── Steps ─────────────────────────────────────────────────────────────────

  datatype Label =
    | TakeRequest                                                              // coordinator
    | TakeEvent
    | ExecuteNext
    | ScanEnds(result: Option<seq<Device>>, resolved: set<(int, int)>)
    | TakeCommand(i: nat)                                                      // worker i
    | LinkMade(i: nat)
    | LinkFailed(i: nat, tag: C.ErrorTag)
    | Announce(i: nat)
    | Interrupt(i: nat)
    | LinkLost(i: nat)
    | Report(i: nat)
    | Press(btn: U.ButtonEvent)                                                // UI
    | SendRequest
    | ShowEvent

  predicate IsWorkerLabel(l: Label) {
    l.TakeCommand? || l.LinkMade? || l.LinkFailed? || l.Announce? || l.Interrupt? || l.LinkLost? || l.Report?
  }

  predicate IsUiLabel(l: Label) {
    l.Press? || l.SendRequest? || l.ShowEvent?
  }

  /** What `Scanner.Scan` guarantees of a scan result. */
  ghost predicate IsScanResult(result: Option<seq<Device>>) {
    result.Some? ==> |result.value| <= BLE_MAX_DISCOVERED && DistinctDevices(result.value)
  }

  ghost predicate WorkerEnabled(s: State, l: Label)
    requires IsWorkerLabel(l)
  {
    && l.i < |s.workers| && l.i < |s.commands|
    && var w := s.workers[l.i];
       match l
       case TakeCommand(i) => w.phase.Idle? && (w.pending.Some? || s.commands[i] != [])
       case LinkMade(i) => w.phase.Establishing?
       case LinkFailed(i, tag) => w.phase.Establishing?
       case Announce(i) => w.phase.Announcing? && |s.events| < SLOT_EVENTS
       case Interrupt(i) => w.phase.Running? && s.commands[i] != []
       case LinkLost(i) => w.phase.Running?
       case Report(i) => w.phase.Ending? && |s.events| < SLOT_EVENTS
  }

  ghost predicate Enabled(s: State, l: Label) {
    match l
    case TakeRequest => s.todo == [] && s.requests != []
    case TakeEvent => s.todo == [] && s.events != []
    case ExecuteNext => s.todo != [] && CanExecute(s, s.todo[0])
    case ScanEnds(result, _) => s.todo != [] && (s.todo[0].Scan? || s.todo[0].BootScan?) && IsScanResult(result)
    case Press(_) => s.ui.sending.None?
    case SendRequest => s.ui.sending.Some? && |s.requests| < UI_REQUESTS
    case ShowEvent => s.ui.sending.None? && s.published != []
    case _ => WorkerEnabled(s, l)
  }

  function PopCommand(s: State, i: nat): State
    requires i < |s.commands| && s.commands[i] != []
  {
    s.(commands := s.commands[i := s.commands[i][1..]])
  }

  ghost function NextWorker(s: State, l: Label): State
    requires IsWorkerLabel(l) && WorkerEnabled(s, l)
  {
    var w := s.workers[l.i];
    match l
    case TakeCommand(i) =>
      if w.pending.Some? then SetWorker(s, i, Obey(w.pending.value))
      else SetWorker(PopCommand(s, i), i, Obey(s.commands[i][0]))
    case LinkMade(i) => SetWorker(s, i, w.(phase := Announcing(w.phase.device, w.phase.epoch)))
    case LinkFailed(i, tag) => SetWorker(s, i, w.(phase := Ending(Failed(tag), w.phase.device, w.phase.epoch)))
    case Announce(i) =>
      SetWorker(s, i, w.(phase := Running(w.phase.device, w.phase.epoch)))
      .(events := s.events + [Connected(i, w.phase.device)])
    case Interrupt(i) =>
      SetWorker(PopCommand(s, i), i,
                w.(phase := Ending(Superseded(s.commands[i][0]), w.phase.device, w.phase.epoch)))
    case LinkLost(i) => SetWorker(s, i, w.(phase := Ending(Closed, w.phase.device, w.phase.epoch)))
    case Report(i) =>
      SetWorker(s, i, AfterReport(w.phase.outcome)).(events := s.events + [LastEvent(i, w.phase.outcome)])
  }

  ghost function Next(s: State, l: Label): State
    requires Enabled(s, l)
  {
    match l
    case TakeRequest => OnRequest(s)
    case TakeEvent => OnEvent(s)
    case ExecuteNext => Execute(s)
    case ScanEnds(result, resolved) =>
      s.(todo := AfterScan(s.todo[0], result, resolved) + s.todo[1..])
    case Press(btn) => s.(ui := UiPressed(s.ui, btn))
    case SendRequest =>
      s.(requests := s.requests + [s.ui.sending.value], ui := s.ui.(sending := None))
    case ShowEvent => s.(published := s.published[1..], ui := UiShown(s.ui, s.published[0]))
    case _ => NextWorker(s, l)
  }

  /** A run of the firmware from boot with the given stored peers. */
  ghost predicate IsRun(peers: seq<Device>, run: seq<State>, labels: seq<Label>) {
    && |peers| <= MAX_CONNECTIONS
    && |run| == |labels| + 1
    && run[0] == Initial(peers)
    && forall n | 0 <= n < |labels| :: Enabled(run[n], labels[n]) && run[n + 1] == Next(run[n], labels[n])
  }
}
