/**
 The BLE-to-USB report path of one link as a step machine: a synchronous producer pushes
 classified reports into the coalescer and raises the wake signal; an asynchronous drain
 pops and sends with backpressure into the bounded channel, which the other link and the
 USB writer use at the same time. Every interleaving of the steps is a run.
 */
module ReportPath {
  import opened Types
  import opened Reports
  import opened Coalescer
  import opened Chains

  const CHANNEL_CAPACITY: nat := 16

  /** Where the drain loop stands: about to pop, inside `send().await`, inside `wait().await`. */
  datatype Drain = Popping | Sending(report: HidReport) | Waiting

  /** `classified`, `sent` and `batches` are history: they record the run and steer nothing. */
  datatype State = State(
    buffer: Buffer,
    wake: bool,
    drain: Drain,
    channel: nat,
    classified: seq<HidReport>,
    sent: seq<HidReport>,
    batches: seq<seq<MouseReport>>)

  const INITIAL: State := State(EMPTY, false, Popping, 0, [], [], [])

  datatype Label =
    | Notify(report: HidReport)  // GATT callback: push and signal
    | PopNext                    // drain: pop, then start sending or waiting
    | SendDone                   // drain: the channel took the report
    | WakeUp                     // drain: the signal was set; waiting resets it
    | OtherSend                  // the other link's drain fills a place of the channel
    | UsbTakes                   // the USB writer frees a place of the channel

  predicate Enabled(s: State, l: Label) {
    match l
    case Notify(_) => true
    case PopNext => s.drain.Popping?
    case SendDone => s.drain.Sending? && s.channel < CHANNEL_CAPACITY
    case WakeUp => s.drain.Waiting? && s.wake
    case OtherSend => s.channel < CHANNEL_CAPACITY
    case UsbTakes => s.channel > 0
  }

  function Next(s: State, l: Label): State
    requires Enabled(s, l)
  {
    match l
    case Notify(r) =>
      s.(buffer := Pushed(s.buffer, r), wake := true, classified := s.classified + [r],
         batches := match r
                    case Mouse(m) => Batched(s.batches, s.buffer.mouse.Some?, m)
                    case _ => s.batches)
    case PopNext =>
      var (next, buffer) := PopFrom(s.buffer);
      s.(buffer := buffer, drain := match next
                                    case Some(r) => Sending(r)
                                    case None => Waiting)
    case SendDone =>
      s.(drain := Popping, channel := s.channel + 1, sent := s.sent + [s.drain.report])
    case WakeUp => s.(drain := Popping, wake := false)
    case OtherSend => s.(channel := s.channel + 1)
    case UsbTakes => s.(channel := s.channel - 1)
  }

  /** History of mouse batches: a report joins the last batch while that one is pending. */
  function Batched(batches: seq<seq<MouseReport>>, pending: bool, m: MouseReport): seq<seq<MouseReport>> {
    if pending && batches != [] then batches[..|batches| - 1] + [batches[|batches| - 1] + [m]]
    else batches + [[m]]
  }

  ghost predicate IsRun(run: seq<State>, labels: seq<Label>) {
    && |run| == |labels| + 1
    && run[0] == INITIAL
    && forall i | 0 <= i < |labels| :: Enabled(run[i], labels[i]) && run[i + 1] == Next(run[i], labels[i])
  }

  // ─── One endpoint's traffic ────────────────────────────────────────────────

  function Only(rs: seq<HidReport>, e: Endpoint): seq<HidReport> {
    if rs == [] then [] else
    var n := |rs| - 1;
    if EndpointOf(rs[n]) == e then Only(rs[..n], e) + [rs[n]] else Only(rs[..n], e)
  }

  lemma OnlyAppend(rs: seq<HidReport>, r: HidReport, e: Endpoint)
    ensures Only(rs + [r], e) == if EndpointOf(r) == e then Only(rs, e) + [r] else Only(rs, e)
  {
    assert (rs + [r])[..|rs|] == rs;
  }

  function InFlight(s: State): seq<HidReport> {
    if s.drain.Sending? then [s.drain.report] else []
  }

  function StillPending(s: State, e: Endpoint): seq<HidReport> {
    var p := PendingAt(s.buffer, Turn(e));
    if p.Some? then [p.value] else []
  }

  /** What left or will leave for the endpoint: sent, then in flight, then pending. */
  function Outgoing(s: State, e: Endpoint): seq<HidReport> {
    Only(s.sent + InFlight(s), e) + StillPending(s, e)
  }

  /** `a` is `b` with some elements left out: match greedily from the end. */
  predicate IsSubsequence(a: seq<HidReport>, b: seq<HidReport>)
    decreases |b|
  {
    if a == [] then true
    else if b == [] then false
    else
      var m, n := |a| - 1, |b| - 1;
      if a[m] == b[n] then IsSubsequence(a[..m], b[..n]) else IsSubsequence(a, b[..n])
  }

  /** `at` picks places of `b`, in order, that hold `a`. */
  ghost predicate Embeds(at: seq<nat>, a: seq<HidReport>, b: seq<HidReport>) {
    && |at| == |a|
    && (forall k | 0 <= k < |at| :: at[k] < |b| && b[at[k]] == a[k])
    && forall k, l | 0 <= k < l < |at| :: at[k] < at[l]
  }

  /** A last element that matches may as well be matched there. */
  lemma EmbedsMatched(at: seq<nat>, a: seq<HidReport>, b: seq<HidReport>)
    requires a != [] && b != [] && a[|a| - 1] == b[|b| - 1]
    ensures Embeds(at, a[..|a| - 1], b[..|b| - 1]) ==> Embeds(at + [|b| - 1], a, b)
    ensures Embeds(at, a, b) ==> Embeds(at[..|a| - 1], a[..|a| - 1], b[..|b| - 1])
  {}

  /** A last element that does not match is left out. */
  lemma EmbedsSkipped(at: seq<nat>, a: seq<HidReport>, b: seq<HidReport>)
    requires a != [] && b != [] && a[|a| - 1] != b[|b| - 1]
    ensures Embeds(at, a, b[..|b| - 1]) <==> Embeds(at, a, b)
  {
    if Embeds(at, a, b) {
      assert at[|a| - 1] != |b| - 1;
      assert forall k | 0 <= k < |at| :: at[k] <= at[|a| - 1] < |b| - 1;
    }
  }

  lemma EmbedsSomewhere(at: seq<nat>, a: seq<HidReport>, b: seq<HidReport>)
    requires a != [] && Embeds(at, a, b)
    ensures b != []
  {
    assert at[0] < |b|;
  }

  /** The greedy match succeeds exactly if some increasing choice of places matches. */
  lemma {:induction false} SubsequenceMeaning(a: seq<HidReport>, b: seq<HidReport>)
    ensures IsSubsequence(a, b) <==> exists at :: Embeds(at, a, b)
    decreases |b|
  {
    if a == [] {
      assert Embeds([], a, b);
    } else if b == [] {
      forall at | Embeds(at, a, b)
        ensures false
      {
        EmbedsSomewhere(at, a, b);
      }
    } else {
      var init, shorter := a[..|a| - 1], b[..|b| - 1];
      if a[|a| - 1] == b[|b| - 1] {
        SubsequenceMeaning(init, shorter);
        if at :| Embeds(at, init, shorter) {
          EmbedsMatched(at, a, b);
        } else if at :| Embeds(at, a, b) {
          EmbedsMatched(at, a, b);
        }
      } else {
        SubsequenceMeaning(a, shorter);
        if at :| Embeds(at, a, shorter) {
          EmbedsSkipped(at, a, b);
        } else if at :| Embeds(at, a, b) {
          EmbedsSkipped(at, a, b);
        }
      }
    }
  }

  lemma {:induction false} SubsequenceDropLast(a: seq<HidReport>, b: seq<HidReport>)
    requires a != [] && IsSubsequence(a, b)
    ensures IsSubsequence(a[..|a| - 1], b)
    decreases |b|
  {
    var m, n := |a| - 1, |b| - 1;
    if a[m] != b[n] {
      SubsequenceDropLast(a, b[..n]);
    }
    if m > 0 && a[m - 1] == b[n] {
      SubsequenceDropLast(a[..m], b[..n]);
    }
  }

  lemma SubsequenceAppend(a: seq<HidReport>, b: seq<HidReport>, r: HidReport)
    requires IsSubsequence(a, b)
    ensures IsSubsequence(a + [r], b + [r])
  {
    assert (a + [r])[..|a|] == a;
    assert (b + [r])[..|b|] == b;
  }

  lemma {:induction false} SubsequencePrefix(a: seq<HidReport>, k: nat, b: seq<HidReport>)
    requires k <= |a| && IsSubsequence(a, b)
    ensures IsSubsequence(a[..k], b)
    decreases |a|
  {
    if k < |a| {
      SubsequenceDropLast(a, b);
      SubsequencePrefix(a[..|a| - 1], k, b);
      assert a[..|a| - 1][..k] == a[..k];
    } else {
      assert a[..k] == a;
    }
  }

  predicate SameLast(a: seq<HidReport>, b: seq<HidReport>) {
    b != [] ==> a != [] && a[|a| - 1] == b[|b| - 1]
  }

  // ─── Invariant ─────────────────────────────────────────────────────────────

  /** Keyboard and consumer reports carry absolute state. */
  predicate IsAbsolute(e: Endpoint) {
    e != MouseEndpoint
  }

  function Mice(rs: seq<HidReport>): seq<MouseReport> {
    if rs == [] then [] else
    var n := |rs| - 1;
    if rs[n].Mouse? then Mice(rs[..n]) + [rs[n].m] else Mice(rs[..n])
  }

  lemma MiceAppend(rs: seq<HidReport>, r: HidReport)
    ensures Mice(rs + [r]) == if r.Mouse? then Mice(rs) + [r.m] else Mice(rs)
  {
    assert (rs + [r])[..|rs|] == rs;
  }

  function Flatten(batches: seq<seq<MouseReport>>): seq<MouseReport> {
    if batches == [] then [] else Flatten(batches[..|batches| - 1]) + batches[|batches| - 1]
  }

  /** Mouse reports that left or will leave, in order. */
  function OutgoingMice(s: State): seq<MouseReport> {
    Mice(s.sent + InFlight(s)) + if s.buffer.mouse.Some? then [s.buffer.mouse.value] else []
  }

  /** Each report of `merged` is the merge of the batch at its place. */
  ghost predicate MergedTo(batches: seq<seq<MouseReport>>, merged: seq<MouseReport>) {
    && |batches| == |merged|
    && forall i | 0 <= i < |batches| :: batches[i] != [] && merged[i] == MergeAll(batches[i])
  }

  ghost predicate MouseInvariant(s: State) {
    Flatten(s.batches) == Mice(s.classified) && MergedTo(s.batches, OutgoingMice(s))
  }

  ghost predicate AbsoluteInvariant(s: State, e: Endpoint) {
    && IsSubsequence(Outgoing(s, e), Only(s.classified, e))
    && SameLast(Outgoing(s, e), Only(s.classified, e))
  }

  ghost predicate Invariant(s: State) {
    && ValidCursor(s.buffer)
    && (s.drain.Waiting? && !NothingPending(s.buffer) ==> s.wake)
    && (forall e | IsAbsolute(e) :: AbsoluteInvariant(s, e))
    && MouseInvariant(s)
    && s.channel <= CHANNEL_CAPACITY
  }

  /** A newer report takes the place of the one that is still pending, if any. */
  lemma Supersede(done: seq<HidReport>, pending: seq<HidReport>, all: seq<HidReport>, r: HidReport)
    requires |pending| <= 1 && IsSubsequence(done + pending, all)
    ensures IsSubsequence(done + [r], all + [r])
  {
    if pending != [] {
      SubsequenceDropLast(done + pending, all);
      assert (done + pending)[..|done|] == done;
    } else {
      assert done + pending == done;
    }
    SubsequenceAppend(done, all, r);
  }

  lemma NotifyMoves(s: State, r: HidReport, e: Endpoint)
    requires IsAbsolute(e)
    ensures Only(Next(s, Notify(r)).classified, e)
            == if EndpointOf(r) == e then Only(s.classified, e) + [r] else Only(s.classified, e)
    ensures Outgoing(Next(s, Notify(r)), e)
            == if EndpointOf(r) == e then Only(s.sent + InFlight(s), e) + [r] else Outgoing(s, e)
  {
    OnlyAppend(s.classified, r, e);
  }

  lemma NotifyAbsolute(s: State, r: HidReport, e: Endpoint)
    requires IsAbsolute(e) && AbsoluteInvariant(s, e)
    ensures AbsoluteInvariant(Next(s, Notify(r)), e)
  {
    NotifyMoves(s, r, e);
    if EndpointOf(r) == e {
      Supersede(Only(s.sent + InFlight(s), e), StillPending(s, e), Only(s.classified, e), r);
    }
  }

  lemma FlattenAppend(batches: seq<seq<MouseReport>>, b: seq<MouseReport>)
    ensures Flatten(batches + [b]) == Flatten(batches) + b
  {
    assert (batches + [b])[..|batches|] == batches;
  }

  lemma MergeAppend(batch: seq<MouseReport>, m: MouseReport)
    requires batch != []
    ensures MergeAll(batch + [m]) == MergedWith(MergeAll(batch), m)
  {
    assert (batch + [m])[..|batch|] == batch;
  }

  lemma BatchOpened(batches: seq<seq<MouseReport>>, merged: seq<MouseReport>, m: MouseReport)
    requires MergedTo(batches, merged)
    ensures MergedTo(batches + [[m]], merged + [m])
    ensures Flatten(batches + [[m]]) == Flatten(batches) + [m]
  {
    FlattenAppend(batches, [m]);
  }

  lemma BatchGrown(first: seq<seq<MouseReport>>, last: seq<MouseReport>,
                   merged: seq<MouseReport>, pending: MouseReport, m: MouseReport)
    requires MergedTo(first + [last], merged + [pending])
    ensures MergedTo(first + [last + [m]], merged + [MergedWith(pending, m)])
    ensures Flatten(first + [last + [m]]) == Flatten(first + [last]) + [m]
  {
    var batches, outgoing := first + [last], merged + [pending];
    assert batches[|first|] == last && outgoing[|first|] == pending;
    assert forall i | 0 <= i < |first| :: first[i] == batches[i] && merged[i] == outgoing[i];
    MergeAppend(last, m);
    FlattenAppend(first, last);
    FlattenAppend(first, last + [m]);
  }

  lemma NotifyMovesMouse(s: State, m: MouseReport)
    ensures OutgoingMice(Next(s, Notify(Mouse(m))))
            == Mice(s.sent + InFlight(s))
               + [if s.buffer.mouse.Some? then MergedWith(s.buffer.mouse.value, m) else m]
  {}

  lemma NotifyMouse(s: State, r: HidReport)
    requires MouseInvariant(s)
    ensures MouseInvariant(Next(s, Notify(r)))
  {
    MiceAppend(s.classified, r);
    if r.Mouse? {
      NotifyMovesMouse(s, r.m);
      var done := Mice(s.sent + InFlight(s));
      if s.buffer.mouse.Some? {
        var n := |s.batches| - 1;
        assert s.batches == s.batches[..n] + [s.batches[n]];
        BatchGrown(s.batches[..n], s.batches[n], done, s.buffer.mouse.value, r.m);
      } else {
        assert OutgoingMice(s) == done;
        BatchOpened(s.batches, done, r.m);
      }
    } else {
      assert OutgoingMice(Next(s, Notify(r))) == OutgoingMice(s);
    }
  }

  /** Popping only moves a report from pending to in flight. */
  lemma PopMoves(s: State, e: Endpoint)
    requires ValidCursor(s.buffer) && s.drain.Popping?
    ensures Outgoing(Next(s, PopNext), e) == Outgoing(s, e)
    ensures OutgoingMice(Next(s, PopNext)) == OutgoingMice(s)
    ensures ValidCursor(Next(s, PopNext).buffer)
    ensures Next(s, PopNext).drain.Waiting? ==> NothingPending(Next(s, PopNext).buffer)
  {
    var s' := Next(s, PopNext);
    PopMeaning(s.buffer);
    assert s.sent + InFlight(s) == s.sent;
    if s'.drain.Sending? {
      var r := s'.drain.report;
      OnlyAppend(s.sent, r, e);
      MiceAppend(s.sent, r);
      assert s'.sent + InFlight(s') == s.sent + [r];
      assert StillPending(s, e) == if EndpointOf(r) == e then [r] + StillPending(s', e) else StillPending(s', e);
    } else {
      assert s'.sent + InFlight(s') == s.sent;
    }
  }

  lemma SendMoves(s: State, e: Endpoint)
    requires Enabled(s, SendDone)
    ensures Outgoing(Next(s, SendDone), e) == Outgoing(s, e)
    ensures OutgoingMice(Next(s, SendDone)) == OutgoingMice(s)
  {
    var s' := Next(s, SendDone);
    assert s'.sent + InFlight(s') == s.sent + InFlight(s);
  }

  lemma WakeMoves(s: State, e: Endpoint)
    requires Enabled(s, WakeUp)
    ensures Outgoing(Next(s, WakeUp), e) == Outgoing(s, e)
    ensures OutgoingMice(Next(s, WakeUp)) == OutgoingMice(s)
  {
    assert InFlight(Next(s, WakeUp)) == InFlight(s);
  }

  /** A step other than a notification leaves the outgoing traffic of every endpoint alone. */
  lemma DrainKeepsTraffic(s: State, l: Label, e: Endpoint)
    requires Enabled(s, l) && !l.Notify? && ValidCursor(s.buffer)
    ensures Outgoing(Next(s, l), e) == Outgoing(s, e)
    ensures OutgoingMice(Next(s, l)) == OutgoingMice(s)
    ensures ValidCursor(Next(s, l).buffer)
  {
    match l {
      case PopNext => PopMoves(s, e);
      case SendDone => SendMoves(s, e);
      case WakeUp => WakeMoves(s, e);
      case OtherSend => assert InFlight(Next(s, l)) == InFlight(s);
      case UsbTakes => assert InFlight(Next(s, l)) == InFlight(s);
    }
  }

  lemma StepKeepsInvariant(s: State, l: Label)
    requires Invariant(s) && Enabled(s, l)
    ensures Invariant(Next(s, l))
  {
    forall e | IsAbsolute(e)
      ensures AbsoluteInvariant(Next(s, l), e)
    {
      if l.Notify? {
        NotifyAbsolute(s, l.report, e);
      } else {
        DrainKeepsTraffic(s, l, e);
      }
    }
    if l.Notify? {
      NotifyMouse(s, l.report);
    } else {
      DrainKeepsTraffic(s, l, MouseEndpoint);
    }
    if l.PopNext? {
      PopMoves(s, MouseEndpoint);
    }
  }

  lemma {:induction false} RunKeepsInvariant(run: seq<State>, labels: seq<Label>, i: nat)
    requires IsRun(run, labels) && i < |run|
    ensures Invariant(run[i])
  {
    if i > 0 {
      RunKeepsInvariant(run, labels, i - 1);
      StepKeepsInvariant(run[i - 1], labels[i - 1]);
    }
  }

  // ─── Results over every run ────────────────────────────────────────────────

  /**
   No key stays stuck: what was sent for the keyboard (or consumer) endpoint is always a
   subsequence of what was classified, and whenever the drain waits with no signal raised,
   the newest classified report is the newest one sent.
   */
  lemma NoStuckKey(run: seq<State>, labels: seq<Label>, i: nat, e: Endpoint)
    requires IsRun(run, labels) && i < |run| && IsAbsolute(e)
    ensures IsSubsequence(Only(run[i].sent, e), Only(run[i].classified, e))
    ensures SameLast(Outgoing(run[i], e), Only(run[i].classified, e))
    ensures run[i].drain.Waiting? && !run[i].wake ==>
              SameLast(Only(run[i].sent, e), Only(run[i].classified, e))
  {
    RunKeepsInvariant(run, labels, i);
    SentFirst(run[i], e);
    assert Outgoing(run[i], e)[..|Only(run[i].sent, e)|] == Only(run[i].sent, e);
    SubsequencePrefix(Outgoing(run[i], e), |Only(run[i].sent, e)|, Only(run[i].classified, e));
  }

  /** What was sent comes first of what leaves, and is all of it when the drain waits with nothing pending. */
  lemma SentFirst(s: State, e: Endpoint)
    ensures Only(s.sent, e) <= Outgoing(s, e)
    ensures s.drain.Waiting? && NothingPending(s.buffer) ==> Outgoing(s, e) == Only(s.sent, e)
  {
    if s.drain.Sending? {
      OnlyAppend(s.sent, s.drain.report, e);
    } else {
      assert s.sent + [] == s.sent;
    }
  }

  /** The drain never sleeps on work: waiting without a signal means an empty coalescer. */
  lemma NoLostWakeup(run: seq<State>, labels: seq<Label>, i: nat)
    requires IsRun(run, labels) && i < |run|
    ensures run[i].drain.Waiting? && !NothingPending(run[i].buffer) ==> Enabled(run[i], WakeUp)
  {
    RunKeepsInvariant(run, labels, i);
  }

  function Wakes(labels: seq<Label>, n: nat): nat
    requires n <= |labels|
  {
    if n == 0 then 0 else Wakes(labels, n - 1) + if labels[n - 1].WakeUp? then 1 else 0
  }

  function Notifications(labels: seq<Label>, n: nat): nat
    requires n <= |labels|
  {
    if n == 0 then 0 else Notifications(labels, n - 1) + if labels[n - 1].Notify? then 1 else 0
  }

  /** The drain does not spin: it wakes at most once per notification, and a raised signal is not spent yet. */
  lemma {:induction false} WakesAreSpent(run: seq<State>, labels: seq<Label>, n: nat)
    requires IsRun(run, labels) && n < |run|
    ensures Wakes(labels, n) + (if run[n].wake then 1 else 0) <= Notifications(labels, n)
  {
    if n > 0 {
      WakesAreSpent(run, labels, n - 1);
    }
  }

  // ─── No endpoint starves ───────────────────────────────────────────────────

  /** What the drain took out of the buffer for the endpoint: sent, then in flight. */
  function Taken(s: State, e: Endpoint): seq<HidReport> {
    Only(s.sent + InFlight(s), e)
  }

  /** How many reports leave before what is pending for the endpoint can. */
  function Ahead(s: State, e: Endpoint): nat {
    (if s.drain.Sending? then 1 else 0) + Distance(s.buffer, e)
  }

  function Sends(labels: seq<Label>, i: nat, j: nat): nat
    requires i <= j <= |labels|
  {
    if i == j then 0 else Sends(labels, i, j - 1) + SendsNow(labels[j - 1])
  }

  ghost predicate IsNewest(s: State, e: Endpoint, r: HidReport) {
    var all := Only(s.classified, e);
    all != [] && all[|all| - 1] == r
  }

  /** `r` was the newest report of the endpoint at some point of the run from `i` to `j`. */
  ghost predicate WasNewest(run: seq<State>, i: nat, j: nat, e: Endpoint, r: HidReport) {
    exists k | i <= k <= j && k < |run| :: IsNewest(run[k], e, r)
  }

  /**
   Where a report stands that was pending with `n` taken before it and `ahead` to leave first,
   after `sends` reports left: pending, in flight or sent.
   */
  predicate OnItsWay(s: State, e: Endpoint, n: nat, ahead: nat, sends: nat) {
    if |Taken(s, e)| == n then IsPending(s.buffer, e) && sends + Ahead(s, e) <= ahead
    else |Taken(s, e)| > n && (|Only(s.sent, e)| > n || sends <= ahead)
  }

  /** A step takes a report only by a pop, and sends what is in flight. */
  lemma TakenStep(s: State, l: Label, e: Endpoint)
    requires Enabled(s, l)
    ensures Only(s.sent, e) <= Only(Next(s, l).sent, e)
    ensures l.SendDone? ==> Only(Next(s, l).sent, e) == Taken(s, e)
    ensures !l.PopNext? ==> Taken(Next(s, l), e) == Taken(s, e)
    ensures l.PopNext? ==> var r := PopFrom(s.buffer).0;
                           Taken(Next(s, l), e) == if r.Some? && EndpointOf(r.value) == e
                                                   then Taken(s, e) + [r.value] else Taken(s, e)
  {
    var s' := Next(s, l);
    match l {
      case Notify(_) =>
      case PopNext =>
        assert s.sent + InFlight(s) == s.sent;
        if s'.drain.Sending? {
          OnlyAppend(s.sent, s'.drain.report, e);
        } else {
          assert s'.sent + InFlight(s') == s.sent;
        }
      case SendDone =>
        OnlyAppend(s.sent, s.drain.report, e);
        assert s'.sent + InFlight(s') == s'.sent;
      case WakeUp => assert InFlight(s') == InFlight(s);
      case OtherSend => assert InFlight(s') == InFlight(s);
      case UsbTakes => assert InFlight(s') == InFlight(s);
    }
  }

  function SendsNow(l: Label): nat {
    if l.SendDone? then 1 else 0
  }

  lemma PopAhead(s: State, e: Endpoint)
    requires ValidCursor(s.buffer) && s.drain.Popping? && IsPending(s.buffer, e)
    ensures PopFrom(s.buffer).0.Some?
    ensures var r := PopFrom(s.buffer).0;
            if EndpointOf(r.value) == e then r == PendingAt(s.buffer, Turn(e))
            else IsPending(Next(s, PopNext).buffer, e) && Ahead(Next(s, PopNext), e) <= Ahead(s, e)
  {
    PopApproaches(s.buffer, e);
    PopMeaning(s.buffer);
  }

  /** Apart from a pop that takes it up, no step moves a pending endpoint further away. */
  lemma AheadStep(s: State, l: Label, e: Endpoint)
    requires Enabled(s, l) && !l.PopNext? && IsPending(s.buffer, e)
    ensures IsPending(Next(s, l).buffer, e)
    ensures Ahead(Next(s, l), e) + SendsNow(l) <= Ahead(s, e)
  {
    if l.Notify? {
      assert Pushed(s.buffer, l.report).next == s.buffer.next;
    }
  }

  /** What is pending for an endpoint with absolute state is its newest report. */
  lemma PendingIsNewest(s: State, e: Endpoint)
    requires Invariant(s) && IsAbsolute(e) && IsPending(s.buffer, e)
    ensures IsNewest(s, e, PendingAt(s.buffer, Turn(e)).value)
  {
    var all, out := Only(s.classified, e), Outgoing(s, e);
    assert AbsoluteInvariant(s, e);
    assert out[|out| - 1] == PendingAt(s.buffer, Turn(e)).value;
    if all == [] {
      assert false;
    }
  }

  lemma OnItsWayStep(s: State, l: Label, e: Endpoint, n: nat, ahead: nat, sends: nat)
    requires Invariant(s) && Enabled(s, l) && OnItsWay(s, e, n, ahead, sends)
    ensures OnItsWay(Next(s, l), e, n, ahead, sends + SendsNow(l))
  {
    TakenStep(s, l, e);
    if |Taken(s, e)| == n {
      if l.PopNext? {
        PopAhead(s, e);
      } else {
        AheadStep(s, l, e);
      }
    }
  }

  lemma {:induction false} StaysOnItsWay(run: seq<State>, labels: seq<Label>, i: nat, j: nat, e: Endpoint)
    requires IsRun(run, labels) && i <= j < |run| && IsPending(run[i].buffer, e)
    ensures OnItsWay(run[j], e, |Taken(run[i], e)|, Ahead(run[i], e), Sends(labels, i, j))
    decreases j
  {
    if i < j {
      StaysOnItsWay(run, labels, i, j - 1, e);
      RunKeepsInvariant(run, labels, j - 1);
      OnItsWayStep(run[j - 1], labels[j - 1], e, |Taken(run[i], e)|, Ahead(run[i], e), Sends(labels, i, j - 1));
    }
  }

  /** A report that a step takes up was the newest of its endpoint. */
  lemma TakesNewest(s: State, l: Label, e: Endpoint)
    requires Invariant(s) && Enabled(s, l) && IsAbsolute(e)
    ensures Taken(Next(s, l), e) == Taken(s, e)
            || exists r :: Taken(Next(s, l), e) == Taken(s, e) + [r] && IsNewest(s, e, r)
  {
    TakenStep(s, l, e);
    if l.PopNext? {
      PopMeaning(s.buffer);
      if IsPending(s.buffer, e) {
        PendingIsNewest(s, e);
      }
    }
  }

  /** If the drain took more than `n` reports for the endpoint, the next was the newest in state `was`. */
  ghost predicate TookNewest(s: State, was: State, e: Endpoint, n: nat) {
    n < |Taken(s, e)| ==> IsNewest(was, e, Taken(s, e)[n])
  }

  lemma TookNewestStep(s: State, l: Label, was: State, e: Endpoint, n: nat)
    requires Invariant(s) && Enabled(s, l) && IsAbsolute(e) && TookNewest(s, was, e, n)
    requires |Taken(s, e)| <= n ==> was == s
    ensures TookNewest(Next(s, l), was, e, n)
  {
    TakesNewest(s, l, e);
  }

  /** What was taken up since `i` for keyboard or consumer was the newest at some point since `i`. */
  lemma {:induction false} TakenWasNewest(run: seq<State>, labels: seq<Label>, i: nat, j: nat, e: Endpoint, n: nat)
    returns (k: nat)
    requires IsRun(run, labels) && i <= j < |run| && IsAbsolute(e)
    requires |Taken(run[i], e)| <= n
    ensures i <= k <= j && TookNewest(run[j], run[k], e, n)
    decreases j
  {
    k := i;
    if i < j {
      k := TakenWasNewest(run, labels, i, j - 1, e, n);
      if |Taken(run[j - 1], e)| <= n {
        k := j - 1;
      }
      RunKeepsInvariant(run, labels, j - 1);
      TookNewestStep(run[j - 1], labels[j - 1], run[k], e, n);
    }
  }

  lemma SentIsTaken(s: State, e: Endpoint)
    ensures Only(s.sent, e) <= Taken(s, e)
  {
    if s.drain.Sending? {
      OnlyAppend(s.sent, s.drain.report, e);
    } else {
      assert s.sent + InFlight(s) == s.sent;
    }
  }

  /**
   What is pending leaves soon: once more reports were sent than are ahead of it, at most three,
   a report for that endpoint has been sent that was not yet taken when it was pending. For
   keyboard and consumer that is the pending report, or a newer one that was the newest in between.
   */
  lemma PendingIsSent(run: seq<State>, labels: seq<Label>, i: nat, j: nat, e: Endpoint)
    requires IsRun(run, labels) && i <= j < |run| && IsPending(run[i].buffer, e)
    ensures Ahead(run[i], e) <= 3
    ensures Sends(labels, i, j) > Ahead(run[i], e) ==>
              var n, sent := |Taken(run[i], e)|, Only(run[j].sent, e);
              n < |sent| && (IsAbsolute(e) ==> WasNewest(run, i, j, e, sent[n]))
  {
    StaysOnItsWay(run, labels, i, j, e);
    SentIsTaken(run[j], e);
    if IsAbsolute(e) {
      var _ := TakenWasNewest(run, labels, i, j, e, |Taken(run[i], e)|);
    }
  }

  lemma {:induction false} BatchTravel(batches: seq<seq<MouseReport>>, merged: seq<MouseReport>, axis: Axis)
    requires MergedTo(batches, merged)
    requires forall b | b in batches :: StaysInRange(b, axis)
    ensures Travel(merged, axis) == Travel(Flatten(batches), axis)
  {
    if batches != [] {
      var n := |batches| - 1;
      BatchTravel(batches[..n], merged[..n], axis);
      TravelConcat(Flatten(batches[..n]), batches[n], axis);
      assert batches[n] in batches;
      TravelAccounted(batches[n], axis);
      assert batches[n][..|batches[n]|] == batches[n];
    }
  }

  ghost predicate AllInRange(s: State, axis: Axis) {
    forall b | b in s.batches :: StaysInRange(b, axis)
  }

  /** What was sent, is in flight and is pending adds up to what was classified. */
  ghost predicate TravelKept(s: State, axis: Axis) {
    Travel(OutgoingMice(s), axis) == Travel(Mice(s.classified), axis)
  }

  /** Growing a batch keeps the travel exactly if the grown batch stays in range. */
  lemma GrownTravel(first: seq<seq<MouseReport>>, last: seq<MouseReport>,
                    merged: seq<MouseReport>, pending: MouseReport, m: MouseReport, axis: Axis)
    requires MergedTo(first + [last], merged + [pending])
    requires forall b | b in first + [last] :: StaysInRange(b, axis)
    ensures Travel(merged + [MergedWith(pending, m)], axis) == Travel(Flatten(first + [last]) + [m], axis)
            <==> StaysInRange(last + [m], axis)
  {
    var batches, outgoing := first + [last], merged + [pending];
    assert batches[|first|] == last && outgoing[|first|] == pending && last in batches;
    assert forall i | 0 <= i < |first| :: first[i] == batches[i] && merged[i] == outgoing[i];
    assert forall b | b in first :: b in batches;
    BatchTravel(first, merged, axis);
    FlattenAppend(first, last);
    TravelConcat(Flatten(first), last, axis);
    TravelConcat(Flatten(batches), [m], axis);
    TravelConcat(merged, [MergedWith(pending, m)], axis);
    TravelOne(m, axis);
    TravelOne(MergedWith(pending, m), axis);
    TravelAccounted(last, axis);
    OneMore(last, m, axis);
  }

  lemma TravelOne(m: MouseReport, axis: Axis)
    ensures Travel([m], axis) == Delta(m, axis) as int && StaysInRange([m], axis)
  {
    assert [m][..0] == [];
  }

  lemma InRangeKeepsTravel(s: State, axis: Axis)
    requires MouseInvariant(s) && AllInRange(s, axis)
    ensures TravelKept(s, axis)
  {
    BatchTravel(s.batches, OutgoingMice(s), axis);
  }

  lemma GrownInRange(first: seq<seq<MouseReport>>, last: seq<MouseReport>, grown: seq<MouseReport>, axis: Axis)
    requires forall b | b in first + [last] :: StaysInRange(b, axis)
    ensures (forall b | b in first + [grown] :: StaysInRange(b, axis)) <==> StaysInRange(grown, axis)
  {
    assert forall b | b in first :: b in first + [last];
    assert (first + [grown])[|first|] == grown;
  }

  /** A report joins the pending batch. */
  lemma BatchTravelStep(s: State, m: MouseReport, axis: Axis)
    requires MouseInvariant(s) && s.buffer.mouse.Some? && AllInRange(s, axis)
    ensures AllInRange(Next(s, Notify(Mouse(m))), axis) <==> TravelKept(Next(s, Notify(Mouse(m))), axis)
  {
    var s', done, n := Next(s, Notify(Mouse(m))), Mice(s.sent + InFlight(s)), |s.batches| - 1;
    var first, last, pending := s.batches[..n], s.batches[n], s.buffer.mouse.value;
    assert s.batches == first + [last];
    NotifyMovesMouse(s, m);
    MiceAppend(s.classified, Mouse(m));
    assert s'.batches == first + [last + [m]];
    assert OutgoingMice(s') == done + [MergedWith(pending, m)] && Mice(s'.classified) == Flatten(s.batches) + [m];
    GrownTravel(first, last, done, pending, m, axis);
    GrownInRange(first, last, last + [m], axis);
  }

  /** A report opens a batch, which a single report never takes out of range. */
  lemma OpeningTravelStep(s: State, m: MouseReport, axis: Axis)
    requires MouseInvariant(s) && s.buffer.mouse.None? && AllInRange(s, axis)
    ensures AllInRange(Next(s, Notify(Mouse(m))), axis) && TravelKept(Next(s, Notify(Mouse(m))), axis)
  {
    var s' := Next(s, Notify(Mouse(m)));
    NotifyMouse(s, Mouse(m));
    TravelOne(m, axis);
    assert s'.batches == s.batches + [[m]];
    InRangeKeepsTravel(s', axis);
  }

  /** The first step that takes a batch out of range is the first that loses travel. */
  lemma TravelStep(s: State, l: Label, axis: Axis)
    requires Invariant(s) && Enabled(s, l) && AllInRange(s, axis)
    ensures AllInRange(Next(s, l), axis) <==> TravelKept(Next(s, l), axis)
  {
    if l.Notify? && l.report.Mouse? {
      if s.buffer.mouse.Some? {
        BatchTravelStep(s, l.report.m, axis);
      } else {
        OpeningTravelStep(s, l.report.m, axis);
      }
    } else {
      StepKeepsInvariant(s, l);
      assert Next(s, l).batches == s.batches;
      InRangeKeepsTravel(Next(s, l), axis);
    }
  }

  /** Each outgoing mouse report is the merge of one batch of consecutive classified reports, none lost. */
  lemma OutgoingAreBatches(run: seq<State>, labels: seq<Label>, i: nat)
    requires IsRun(run, labels) && i < |run|
    ensures Flatten(run[i].batches) == Mice(run[i].classified)
    ensures MergedTo(run[i].batches, OutgoingMice(run[i]))
  {
    RunKeepsInvariant(run, labels, i);
  }

  lemma RunTravelStep(run: seq<State>, labels: seq<Label>, k: nat, axis: Axis)
    requires IsRun(run, labels) && k < |labels| && AllInRange(run[k], axis)
    ensures AllInRange(run[k + 1], axis) <==> TravelKept(run[k + 1], axis)
  {
    RunKeepsInvariant(run, labels, k);
    TravelStep(run[k], labels[k], axis);
  }

  /**
   Mouse travel on an axis is kept in every state of a run, that is, what was sent, is in flight
   and is pending adds up to what was classified, exactly if no batch ever leaves the `i8` range
   on it.
   */
  lemma TravelConserved(run: seq<State>, labels: seq<Label>, axis: Axis)
    requires IsRun(run, labels)
    ensures (forall i | 0 <= i < |run| :: TravelKept(run[i], axis)) <==> (forall i | 0 <= i < |run| :: AllInRange(run[i], axis))
  {
    forall k | 0 < k < |run| && AllInRange(run[k - 1], axis)
      ensures AllInRange(run[k], axis) <==> TravelKept(run[k], axis)
    {
      RunTravelStep(run, labels, k - 1, axis);
    }
    AllKeepIff(run, (s: State) => AllInRange(s, axis), (s: State) => TravelKept(s, axis));
  }
}
