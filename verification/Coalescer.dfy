/** The per-endpoint coalescing buffer between the GATT callback and the USB channel. */
module Coalescer {
  import opened Types
  import opened Reports

  const ENDPOINTS: nat := 3

  datatype Endpoint = KeyboardEndpoint | MouseEndpoint | ConsumerEndpoint

  function EndpointOf(r: HidReport): Endpoint {
    match r
    case Keyboard(_) => KeyboardEndpoint
    case Mouse(_) => MouseEndpoint
    case Consumer(_) => ConsumerEndpoint
  }

  /** Place of an endpoint in the round-robin order. */
  function Turn(e: Endpoint): nat {
    match e
    case KeyboardEndpoint => 0
    case MouseEndpoint => 1
    case ConsumerEndpoint => 2
  }

  /** At most one pending report per endpoint, and the cursor. */
  datatype Buffer = Buffer(
    keyboard: Option<KeyboardReport>,
    mouse: Option<MouseReport>,
    consumer: Option<ConsumerReport>,
    next: nat)

  const EMPTY: Buffer := Buffer(None, None, None, 0)

  ghost predicate ValidCursor(b: Buffer) {
    b.next < ENDPOINTS
  }

  predicate IsPending(b: Buffer, e: Endpoint) {
    match e
    case KeyboardEndpoint => b.keyboard.Some?
    case MouseEndpoint => b.mouse.Some?
    case ConsumerEndpoint => b.consumer.Some?
  }

  predicate NothingPending(b: Buffer) {
    b.keyboard.None? && b.mouse.None? && b.consumer.None?
  }

  function Pushed(b: Buffer, r: HidReport): Buffer {
    match r
    case Keyboard(k) => b.(keyboard := Some(k))
    case Consumer(c) => b.(consumer := Some(c))
    case Mouse(m) =>
      b.(mouse := Some(match b.mouse
                       case Some(pending) => MergedWith(pending, m)
                       case None => m))
  }

  /** The report pending for the endpoint whose turn is `turn`. */
  function PendingAt(b: Buffer, turn: nat): Option<HidReport> {
    if turn == 0 then (if b.keyboard.Some? then Some(Keyboard(b.keyboard.value)) else None)
    else if turn == 1 then (if b.mouse.Some? then Some(Mouse(b.mouse.value)) else None)
    else (if b.consumer.Some? then Some(Consumer(b.consumer.value)) else None)
  }

  function Cleared(b: Buffer, turn: nat): Buffer {
    if turn == 0 then b.(keyboard := None)
    else if turn == 1 then b.(mouse := None)
    else b.(consumer := None)
  }

  /** How many turns before the cursor reaches the endpoint. */
  function Distance(b: Buffer, e: Endpoint): nat {
    (Turn(e) + ENDPOINTS - b.next) % ENDPOINTS
  }

  /** `pop`: what it returns and the buffer it leaves, going at most `tries` endpoints on. */
  function Popped(b: Buffer, tries: nat): (Option<HidReport>, Buffer)
    decreases tries
  {
    if tries == 0 then (None, b) else
    var turn := b.next % ENDPOINTS;
    var moved := b.(next := (b.next + 1) % ENDPOINTS);
    if PendingAt(b, turn).Some? then (PendingAt(b, turn), Cleared(moved, turn))
    else Popped(moved, tries - 1)
  }

  function PopFrom(b: Buffer): (Option<HidReport>, Buffer) {
    Popped(b, ENDPOINTS)
  }

  class ReportCoalescer {
    var keyboard: Option<KeyboardReport>
    var mouse: Option<MouseReport>
    var consumer: Option<ConsumerReport>
    var next: nat

    ghost function Value(): Buffer
      reads this
    {
      Buffer(keyboard, mouse, consumer, next)
    }

    constructor ()
      ensures Value() == EMPTY
    {
      keyboard, mouse, consumer, next := None, None, None, 0;
    }

    method Push(report: HidReport)
      modifies this
      ensures Value() == Pushed(old(Value()), report)
    {
      match report {
        case Keyboard(k) => keyboard := Some(k);
        case Consumer(c) => consumer := Some(c);
        case Mouse(m) =>
          match mouse {
            case Some(pending) => mouse := Some(MergedWith(pending, m));
            case None => mouse := Some(m);
          }
      }
    }

    method Pop() returns (report: Option<HidReport>)
      modifies this
      ensures (report, Value()) == PopFrom(old(Value()))
    {
      report := None;
      for tried := 0 to ENDPOINTS
        invariant report.None?
        invariant Popped(Value(), ENDPOINTS - tried) == PopFrom(old(Value()))
      {
        ghost var before := Value();
        var slot := next % ENDPOINTS;
        next := (next + 1) % ENDPOINTS;
        match slot {
          case 0 =>
            if keyboard.Some? {
              report := Some(Keyboard(keyboard.value));
              keyboard := None;
            }
          case 1 =>
            if mouse.Some? {
              report := Some(Mouse(mouse.value));
              mouse := None;
            }
          case _ =>
            if consumer.Some? {
              report := Some(Consumer(consumer.value));
              consumer := None;
            }
        }
        assert report == PendingAt(before, slot);
        if report.Some? {
          assert (report, Value()) == Popped(before, ENDPOINTS - tried);
          return;
        }
      }
    }
  }

  /**
   `pop` yields nothing exactly when nothing is pending, and then leaves the buffer and its
   cursor alone; otherwise it yields the pending report of one endpoint, the nearest from the
   cursor, clears just that one and moves the cursor right behind it.
   */
  lemma PopMeaning(b: Buffer)
    requires ValidCursor(b)
    ensures PopFrom(b).0.None? <==> NothingPending(b)
    ensures PopFrom(b).0.None? ==> PopFrom(b).1 == b
    ensures PopFrom(b).0.Some? ==>
              var e := EndpointOf(PopFrom(b).0.value);
              && PopFrom(b).0 == PendingAt(b, Turn(e))
              && PopFrom(b).1 == Cleared(b, Turn(e)).(next := (Turn(e) + 1) % ENDPOINTS)
              && forall other :: IsPending(b, other) ==> Distance(b, e) <= Distance(b, other)
  {
    var b1 := b.(next := (b.next + 1) % ENDPOINTS);
    var b2 := b.(next := (b.next + 2) % ENDPOINTS);
    assert PopFrom(b) == if PendingAt(b, b.next).Some? then (PendingAt(b, b.next), Cleared(b1, b.next)) else Popped(b1, 2);
    assert Popped(b1, 2) == if PendingAt(b1, b1.next).Some? then (PendingAt(b1, b1.next), Cleared(b2, b1.next))
                            else Popped(b2, 1);
    assert Popped(b2, 1) == if PendingAt(b2, b2.next).Some?
                            then (PendingAt(b2, b2.next), Cleared(b, b2.next)) else (None, b);
  }

  // ─── Starvation freedom ────────────────────────────────────────────────────

  /** The buffer is used by pushes, in any number, and pops. */
  datatype Use = Push(report: HidReport) | TakeNext

  function After(b: Buffer, uses: seq<Use>): Buffer
    decreases |uses|
  {
    if uses == [] then b else
    After(match uses[0]
          case Push(r) => Pushed(b, r)
          case TakeNext => PopFrom(b).1, uses[1..])
  }

  /** The endpoints served by the pops of a run, in order. */
  function Served(b: Buffer, uses: seq<Use>): seq<Endpoint>
    decreases |uses|
  {
    if uses == [] then [] else
    match uses[0]
    case Push(r) => Served(Pushed(b, r), uses[1..])
    case TakeNext =>
      (if PopFrom(b).0.Some? then [EndpointOf(PopFrom(b).0.value)] else []) + Served(PopFrom(b).1, uses[1..])
  }

  function Pops(uses: seq<Use>): nat {
    if uses == [] then 0 else (if uses[0].TakeNext? then 1 else 0) + Pops(uses[1..])
  }

  /** A pop serves the endpoint or brings the cursor strictly closer to it. */
  lemma PopApproaches(b: Buffer, e: Endpoint)
    requires ValidCursor(b) && IsPending(b, e)
    ensures PopFrom(b).0.Some? && ValidCursor(PopFrom(b).1)
    ensures EndpointOf(PopFrom(b).0.value) != e ==>
              IsPending(PopFrom(b).1, e) && Distance(PopFrom(b).1, e) < Distance(b, e)
  {
    PopMeaning(b);
  }

  /**
   Whatever is pushed in between, a pending endpoint is served within as many pops as the
   cursor is turns away from it, plus one: never later than the third pop.
   */
  lemma {:induction false} ServedWithinDistance(b: Buffer, e: Endpoint, uses: seq<Use>)
    requires ValidCursor(b) && IsPending(b, e) && Pops(uses) > Distance(b, e)
    ensures exists i | 0 <= i <= Distance(b, e) && i < |Served(b, uses)| :: Served(b, uses)[i] == e
    ensures Distance(b, e) < ENDPOINTS
    decreases |uses|
  {
    match uses[0] {
      case Push(r) =>
        ServedWithinDistance(Pushed(b, r), e, uses[1..]);
        assert Served(b, uses) == Served(Pushed(b, r), uses[1..]);
      case TakeNext =>
        PopApproaches(b, e);
        if EndpointOf(PopFrom(b).0.value) == e {
          assert Served(b, uses)[0] == e;
        } else {
          var after := PopFrom(b).1;
          ServedWithinDistance(after, e, uses[1..]);
          var i :| 0 <= i <= Distance(after, e) && i < |Served(after, uses[1..])| && Served(after, uses[1..])[i] == e;
          assert Served(b, uses)[i + 1] == e;
        }
    }
  }
}
