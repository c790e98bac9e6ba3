/**
 What every run keeps about one connection slot. The global state is projected on the slot,
 every global step acts on the projection as one of a few local steps or not at all, and
 the local steps keep the invariant.
 */
module SlotInvariant {
  import opened Types
  import opened Scanner
  import opened Reconnect
  import opened Protocol
  import C = Coordinator

  // ─── Projection on a slot ──────────────────────────────────────────────────

  /** The commands that `todo` still has to send to slot `i`. */
  function Planned(todo: seq<Op>, i: nat): seq<SlotCommand> {
    if todo == [] then [] else
    match CommandTo(todo[0], i)
    case Some(c) => [c] + Planned(todo[1..], i)
    case None => Planned(todo[1..], i)
  }

  /** The queued events of slot `i`. */
  function EventsOf(events: seq<SlotEvent>, i: nat): seq<SlotEvent> {
    if events == [] then []
    else if events[0].slot == i then [events[0]] + EventsOf(events[1..], i)
    else EventsOf(events[1..], i)
  }

  /** How many reservations boot has still to make for slot `i`; a pending boot scan counts as one. */
  function Unbooted(todo: seq<Op>, i: nat): nat {
    if todo == [] then 0
    else (if todo[0].BootScan? || (todo[0].BootReserve? && todo[0].slot == i) then 1 else 0) + Unbooted(todo[1..], i)
  }

  datatype SlotView = SlotView(
    slot: C.Slot, epoch: nat, queue: seq<SlotCommand>, planned: seq<SlotCommand>, unbooted: nat,
    worker: Worker, events: seq<SlotEvent>)

  function ViewOf(s: State, i: nat): SlotView
    requires |s.epochs| == |s.commands| == |s.workers| == MAX_CONNECTIONS && i < MAX_CONNECTIONS
  {
    SlotView(s.table[i], s.epochs[i], s.commands[i], Planned(s.todo, i), Unbooted(s.todo, i),
             s.workers[i], EventsOf(s.events, i))
  }

  /** Commands on their way to the worker, in the order it will read them. */
  function Pipeline(v: SlotView): seq<SlotCommand> {
    v.queue + v.planned
  }

  // ─── Local invariant ───────────────────────────────────────────────────────

  predicate AllDisconnect(cs: seq<SlotCommand>, epoch: int) {
    forall c | c in cs :: c.Disconnect? && c.epoch == epoch
  }

  /**
   The Connect of occupancy `epoch` is under way: stale Disconnects of the previous
   occupancy before it, Disconnects of its own behind it, nothing else.
   */
  predicate ConnectQueued(p: seq<SlotCommand>, epoch: nat, slot: C.Slot): (queued: bool)
    ensures queued ==> slot.connecting && !slot.connected
  {
    p != [] &&
    match p[0]
    case Connect(d, e) => e == epoch && slot == C.Connecting(d) && AllDisconnect(p[1..], epoch)
    case Disconnect(e) => e + 1 == epoch && ConnectQueued(p[1..], epoch, slot)
  }

  lemma {:induction false} QueueConnect(p: seq<SlotCommand>, d: Device, epoch: nat)
    requires AllDisconnect(p, epoch - 1)
    ensures ConnectQueued(p + [Connect(d, epoch)], epoch, C.Connecting(d))
  {
    if p != [] {
      assert p[0] in p;
      assert (p + [Connect(d, epoch)])[1..] == p[1..] + [Connect(d, epoch)];
      QueueConnect(p[1..], d, epoch);
    }
  }

  lemma {:induction false} QueueDisconnect(p: seq<SlotCommand>, epoch: nat, slot: C.Slot)
    requires ConnectQueued(p, epoch, slot)
    ensures ConnectQueued(p + [Disconnect(epoch)], epoch, slot)
  {
    assert (p + [Disconnect(epoch)])[1..] == p[1..] + [Disconnect(epoch)];
    if p[0].Disconnect? {
      QueueDisconnect(p[1..], epoch, slot);
    }
  }

  /** The link was announced: the Connected event is queued, or the table shows the link. */
  predicate Announced(i: nat, slot: C.Slot, events: seq<SlotEvent>, d: Device, last: seq<SlotEvent>) {
    || (slot == C.Connecting(d) && events == [Connected(i, d)] + last)
    || (slot == C.Connected(d) && events == last)
  }

  /** The worker is done with the device and its last event is queued. */
  predicate ReportedFor(i: nat, slot: C.Slot, events: seq<SlotEvent>, d: Device) {
    || Announced(i, slot, events, d, [Disconnected(i)])
    || (slot == C.Connecting(d) && |events| == 1 && events[0].Error? && events[0].slot == i)
  }

  ghost predicate Reported(i: nat, slot: C.Slot, events: seq<SlotEvent>) {
    exists d :: ReportedFor(i, slot, events, d)
  }

  predicate Unused(v: SlotView) {
    v.slot == C.FREE && v.events == [] && v.worker == IDLE
  }

  ghost predicate LocalInvariant(i: nat, v: SlotView) {
    && v.worker.pending.None?
    && v.unbooted <= 1
    && (v.unbooted == 1 ==> Unused(v) && v.epoch == 0 && Pipeline(v) == [])
    && match v.worker.phase
       case Idle =>
         || (ConnectQueued(Pipeline(v), v.epoch, v.slot) && v.events == [])
         || (AllDisconnect(Pipeline(v), v.epoch) && (Unused(v) || Reported(i, v.slot, v.events)))
       case Establishing(d, e) =>
         e == v.epoch && AllDisconnect(Pipeline(v), e) && v.slot == C.Connecting(d) && v.events == []
       case Announcing(d, e) =>
         e == v.epoch && AllDisconnect(Pipeline(v), e) && v.slot == C.Connecting(d) && v.events == []
       case Running(d, e) =>
         e == v.epoch && AllDisconnect(Pipeline(v), e) && Announced(i, v.slot, v.events, d, [])
       case Ending(o, d, e) =>
         && e == v.epoch && AllDisconnect(Pipeline(v), e)
         && match o
            case Closed => Announced(i, v.slot, v.events, d, [])
            case Failed(_) => v.slot == C.Connecting(d) && v.events == []
            case Superseded(c) => c == Disconnect(e) && Announced(i, v.slot, v.events, d, [])
  }

  // ─── Local steps ───────────────────────────────────────────────────────────

  function Reserved(v: SlotView, d: Device): SlotView {
    v.(slot := C.Connecting(d), epoch := v.epoch + 1, unbooted := 0, planned := [Connect(d, v.epoch + 1)])
  }

  lemma ReserveKeeps(i: nat, v: SlotView, d: Device)
    requires LocalInvariant(i, v) && !C.IsOccupied(v.slot) && v.planned == []
    ensures LocalInvariant(i, Reserved(v, d))
  {
    assert v.worker.phase.Idle?;
    assert Pipeline(v) == v.queue && Pipeline(Reserved(v, d)) == v.queue + [Connect(d, v.epoch + 1)];
    QueueConnect(v.queue, d, v.epoch + 1);
  }

  lemma PlanDisconnectKeeps(i: nat, v: SlotView)
    requires LocalInvariant(i, v) && C.IsOccupied(v.slot)
    ensures LocalInvariant(i, v.(planned := v.planned + [Disconnect(v.epoch)]))
  {
    var p, own := Pipeline(v), [Disconnect(v.epoch)];
    assert Pipeline(v.(planned := v.planned + own)) == p + own;
    if ConnectQueued(p, v.epoch, v.slot) {
      QueueDisconnect(p, v.epoch, v.slot);
    }
    assert AllDisconnect(p, v.epoch) ==> AllDisconnect(p + own, v.epoch);
  }

  /** Moving the next planned command into the queue leaves the pipeline alone. */
  lemma SendKeeps(i: nat, v: SlotView)
    requires LocalInvariant(i, v) && v.planned != []
    ensures LocalInvariant(i, v.(queue := v.queue + [v.planned[0]], planned := v.planned[1..]))
  {
    assert v.queue + [v.planned[0]] + v.planned[1..] == Pipeline(v);
  }

  lemma TakeKeeps(i: nat, v: SlotView)
    requires LocalInvariant(i, v) && v.worker.phase.Idle? && v.queue != []
    ensures LocalInvariant(i, v.(queue := v.queue[1..], worker := Obey(v.queue[0])))
  {
    var p := Pipeline(v);
    assert v.queue[1..] + v.planned == p[1..] && p[0] == v.queue[0] && p[0] in p;
  }

  /**
   A worker with a live link only ever receives a Disconnect, and one that was issued for
   this very link.
   */
  lemma RunningReceives(i: nat, v: SlotView)
    requires LocalInvariant(i, v) && v.worker.phase.Running? && v.queue != []
    ensures v.queue[0] == Disconnect(v.worker.phase.epoch)
  {
    assert Pipeline(v)[0] in Pipeline(v);
  }

  lemma InterruptKeeps(i: nat, v: SlotView)
    requires LocalInvariant(i, v) && v.worker.phase.Running? && v.queue != []
    ensures var ph := v.worker.phase;
            LocalInvariant(i, v.(queue := v.queue[1..],
                                 worker := v.worker.(phase := Ending(Superseded(v.queue[0]), ph.device, ph.epoch))))
  {
    RunningReceives(i, v);
    assert v.queue[1..] + v.planned == Pipeline(v)[1..];
  }

  /** Steps of a worker that touch neither its commands nor its events. */
  lemma LinkKeeps(i: nat, v: SlotView, phase: Phase)
    requires LocalInvariant(i, v) && IsMove(v.worker.phase, phase)
    ensures LocalInvariant(i, v.(worker := v.worker.(phase := phase)))
  {}

  lemma AnnounceKeeps(i: nat, v: SlotView)
    requires LocalInvariant(i, v) && v.worker.phase.Announcing?
    ensures var ph := v.worker.phase;
            LocalInvariant(i, v.(worker := v.worker.(phase := Running(ph.device, ph.epoch)),
                                 events := v.events + [Connected(i, ph.device)]))
  {
    assert v.events + [Connected(i, v.worker.phase.device)] == [Connected(i, v.worker.phase.device)] + [];
  }

  lemma ReportKeeps(i: nat, v: SlotView)
    requires LocalInvariant(i, v) && v.worker.phase.Ending?
    ensures var o := v.worker.phase.outcome;
            LocalInvariant(i, v.(worker := AfterReport(o), events := v.events + [LastEvent(i, o)]))
  {
    var o, d := v.worker.phase.outcome, v.worker.phase.device;
    var v' := v.(worker := AfterReport(o), events := v.events + [LastEvent(i, o)]);
    if o.Failed? {
      assert v'.events == [Error(i, o.tag)];
    } else {
      assert v.events == [Connected(i, d)] + [] ==> v'.events == [Connected(i, d)] + [Disconnected(i)];
      assert Announced(i, v'.slot, v'.events, d, [Disconnected(i)]);
    }
    assert ReportedFor(i, v'.slot, v'.events, d);
  }

  /** The slot after its oldest event has been reduced. */
  function Handled(v: SlotView): SlotView
    requires v.events != []
  {
    v.(events := v.events[1..],
       slot := match v.events[0]
               case Connected(_, d) => C.Connected(d)
               case _ => C.FREE)
  }

  lemma HandleKeeps(i: nat, v: SlotView)
    requires LocalInvariant(i, v) && v.events != []
    ensures LocalInvariant(i, Handled(v))
  {
    var v' := Handled(v);
    assert Pipeline(v') == Pipeline(v);
    match v.worker.phase {
      case Idle =>
        assert Reported(i, v.slot, v.events);
        if v.events[0].Connected? {
          var d :| ReportedFor(i, v.slot, v.events, d);
          assert v'.events == [Disconnected(i)];
          assert ReportedFor(i, v'.slot, v'.events, d);
        } else {
          assert v'.events == [];
        }
      case Running(d, _) =>
        assert v'.events == [];
      case Ending(o, d, _) =>
        assert v'.events == [];
      case _ =>
    }
  }

  // ─── The local machine ─────────────────────────────────────────────────────

  /** What a global step can do to one slot. */
  datatype LocalStep =
    | Stay
    | Reserve(device: Device)
    | PlanDisconnect
    | Send
    | Unboot(left: nat)
    | Take
    | Move(phase: Phase)
    | AnnounceLink
    | InterruptLink
    | ReportEnd
    | Handle

  predicate IsMove(from: Phase, to: Phase) {
    match from
    case Establishing(d, e) =>
      || to == Announcing(d, e)
      || (to.Ending? && to.outcome.Failed? && to.device == d && to.epoch == e)
    case Running(d, e) => to == Ending(Closed, d, e)
    case _ => false
  }

  predicate LocalEnabled(v: SlotView, step: LocalStep) {
    match step
    case Stay => true
    case Reserve(_) => !C.IsOccupied(v.slot) && v.planned == []
    case PlanDisconnect => C.IsOccupied(v.slot)
    case Send => v.planned != []
    case Unboot(left) => left <= v.unbooted
    case Take => v.worker.phase.Idle? && v.worker.pending.None? && v.queue != []
    case Move(phase) => IsMove(v.worker.phase, phase)
    case AnnounceLink => v.worker.phase.Announcing?
    case InterruptLink => v.worker.phase.Running? && v.queue != []
    case ReportEnd => v.worker.phase.Ending?
    case Handle => v.events != []
  }

  function ApplyLocal(i: nat, v: SlotView, step: LocalStep): SlotView
    requires LocalEnabled(v, step)
  {
    var ph := v.worker.phase;
    match step
    case Stay => v
    case Reserve(d) => Reserved(v, d)
    case PlanDisconnect => v.(planned := v.planned + [Disconnect(v.epoch)])
    case Send => v.(queue := v.queue + [v.planned[0]], planned := v.planned[1..])
    case Unboot(left) => v.(unbooted := left)
    case Take => v.(queue := v.queue[1..], worker := Obey(v.queue[0]))
    case Move(phase) => v.(worker := v.worker.(phase := phase))
    case AnnounceLink =>
      v.(worker := v.worker.(phase := Running(ph.device, ph.epoch)), events := v.events + [Connected(i, ph.device)])
    case InterruptLink =>
      v.(queue := v.queue[1..],
         worker := v.worker.(phase := Ending(Superseded(v.queue[0]), ph.device, ph.epoch)))
    case ReportEnd => v.(worker := AfterReport(ph.outcome), events := v.events + [LastEvent(i, ph.outcome)])
    case Handle => Handled(v)
  }

  lemma LocalStepKeeps(i: nat, v: SlotView, step: LocalStep)
    requires LocalInvariant(i, v) && LocalEnabled(v, step)
    ensures LocalInvariant(i, ApplyLocal(i, v, step))
  {
    match step {
      case Stay =>
      case Reserve(d) => ReserveKeeps(i, v, d);
      case PlanDisconnect => PlanDisconnectKeeps(i, v);
      case Send => SendKeeps(i, v);
      case Unboot(left) => assert Pipeline(v.(unbooted := left)) == Pipeline(v);
      case Take => TakeKeeps(i, v);
      case Move(phase) => LinkKeeps(i, v, phase);
      case AnnounceLink => AnnounceKeeps(i, v);
      case InterruptLink => InterruptKeeps(i, v);
      case ReportEnd => ReportKeeps(i, v);
      case Handle => HandleKeeps(i, v);
    }
  }
}
