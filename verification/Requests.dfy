/** What becomes of the user's requests: which links they end, and that those links do end. */
module Requests {
  import opened Scanner
  import opened Reconnect
  import opened Protocol
  import opened SlotInvariant
  import opened SlotRuns
  import opened SlotTheorems
  import opened UiRuns
  import C = Coordinator
  import U = Ui

  // ─── What is planned ───────────────────────────────────────────────────────

  /** The Disconnects that `actions` send to slot `i`, stamped with its occupancy. */
  lemma {:induction false} DisconnectsPlanned(actions: seq<C.Action>, epochs: seq<nat>, i: nat)
    requires (forall a | a in actions :: a.DisconnectSlot?) && i < |epochs|
    requires forall j, k | 0 <= j < k < |actions| :: actions[j].slot < actions[k].slot
    ensures Planned(Stamped(actions, epochs), i)
            == if C.DisconnectSlot(i) in actions then [Disconnect(epochs[i])] else []
  {
    if actions != [] {
      var a, rest := actions[0], actions[1..];
      DisconnectsPlanned(rest, epochs, i);
      assert [a] + rest == actions;
      StampedCons(a, rest, epochs);
      assert Stamped(actions, epochs)[1..] == Stamped(rest, epochs);
      assert C.DisconnectSlot(i) in actions <==> a == C.DisconnectSlot(i) || C.DisconnectSlot(i) in rest;
      forall k | 0 <= k < |rest|
        ensures rest[k].slot != a.slot
      {
        assert rest[k] == actions[k + 1];
      }
    }
  }

  predicate IsTaken(t: C.Table, i: nat) {
    i < MAX_CONNECTIONS && (t[i].connected || t[i].connecting)
  }

  /** The request about to be taken ends the link of slot `i`. */
  predicate Ends(s: State, i: nat) {
    && s.requests != [] && IsTaken(s.table, i)
    && match s.requests[0].command
       case StartScan => C.AllTaken(s.table)
       case Disconnect => true
       case Connect(_) => false
  }

  lemma ScanPlans(s: State, i: nat)
    requires s.todo == [] && s.requests != [] && s.requests[0].command.StartScan? && i < MAX_CONNECTIONS == |s.epochs|
    ensures Planned(OnRequest(s).todo, i) == if Ends(s, i) then [Disconnect(s.epochs[i])] else []
  {
    var actions, tail := C.PlanStartScan(s.table), [Publish(U.ScanStarted), Scan];
    C.DisconnectsMeaning(s.table);
    DisconnectsPlanned(actions, s.epochs, i);
    PlannedConcat(Stamped(actions, s.epochs), tail, i);
    QuietOps(tail, i);
    assert C.AllTaken(s.table) ==> IsTaken(s.table, i);
  }

  lemma DisconnectPlans(s: State, i: nat)
    requires s.todo == [] && s.requests != [] && s.requests[0].command.Disconnect? && i < MAX_CONNECTIONS == |s.epochs|
    ensures Planned(OnRequest(s).todo, i) == if Ends(s, i) then [Disconnect(s.epochs[i])] else []
  {
    C.DisconnectsMeaning(s.table);
    DisconnectsPlanned(C.PlanDisconnect(s.table), s.epochs, i);
  }

  /**
   A scan or disconnection that is taken up plans one Disconnect, of the current occupancy, for
   exactly the slots whose links it ends: all slots that are taken for a disconnection; for a
   scan all slots, but none as long as one is free. The table stays as it is.
   */
  lemma RequestPlans(peers: seq<Device>, run: seq<State>, labels: seq<Label>, n: nat, i: nat)
    requires IsRun(peers, run, labels) && n < |labels| && labels[n] == TakeRequest && i < MAX_CONNECTIONS
    requires !run[n].requests[0].command.Connect?
    ensures IsSized(run[n]) && run[n + 1].table == run[n].table && run[n + 1].epochs == run[n].epochs
    ensures ScanPending(run[n + 1].todo) <==> run[n].requests[0].command.StartScan?
    ensures Planned(run[n + 1].todo, i) == if Ends(run[n], i) then [Disconnect(run[n].epochs[i])] else []
  {
    var s := run[n];
    RunKeepsInvariant(peers, run, labels, n);
    if s.requests[0].command.StartScan? {
      StartScanWork(s.table, s.epochs);
      ScanPlans(s, i);
    } else {
      DisconnectWork(s.table, s.epochs);
      DisconnectPlans(s, i);
    }
  }

  // ─── A link that is to end does end ────────────────────────────────────────

  /**
   Occupancy `epoch` of the slot is over, or on the way there: its Disconnect is still to be read,
   or the link is down and its last event still to be sent or processed.
   */
  predicate IsLeaving(v: SlotView, epoch: nat) {
    || v.epoch > epoch || !C.IsOccupied(v.slot)
    || Disconnect(epoch) in Pipeline(v)
    || v.worker.phase.Ending? || (v.worker.phase.Idle? && v.events != [])
  }

  /** A worker that reads the Disconnect either has no link left or is a later occupancy's. */
  lemma TakeLeaves(i: nat, v: SlotView, epoch: nat)
    requires LocalInvariant(i, v) && LocalEnabled(v, Take) && epoch <= v.epoch && IsLeaving(v, epoch)
    ensures IsLeaving(ApplyLocal(i, v, Take), epoch)
  {
    var p, v' := Pipeline(v), ApplyLocal(i, v, Take);
    assert p[0] == v.queue[0] && Pipeline(v') == p[1..] && p == [p[0]] + p[1..];
    if Disconnect(epoch) in p && Disconnect(epoch) !in p[1..] {
      assert p[0] == Disconnect(epoch);
    }
  }

  lemma HandleLeaves(i: nat, v: SlotView, epoch: nat)
    requires LocalInvariant(i, v) && LocalEnabled(v, Handle) && IsLeaving(v, epoch)
    ensures IsLeaving(ApplyLocal(i, v, Handle), epoch)
  {
    assert Pipeline(ApplyLocal(i, v, Handle)) == Pipeline(v);
    if v.worker.phase.Idle? {
      var d :| ReportedFor(i, v.slot, v.events, d);
    }
  }

  lemma StepLeaves(i: nat, v: SlotView, step: LocalStep, epoch: nat)
    requires LocalInvariant(i, v) && LocalEnabled(v, step) && epoch <= v.epoch && IsLeaving(v, epoch)
    ensures epoch <= ApplyLocal(i, v, step).epoch && IsLeaving(ApplyLocal(i, v, step), epoch)
  {
    var v' := ApplyLocal(i, v, step);
    match step {
      case Take => TakeLeaves(i, v, epoch);
      case Handle => HandleLeaves(i, v, epoch);
      case PlanDisconnect => assert Pipeline(v') == Pipeline(v) + [Disconnect(v.epoch)];
      case Send => assert Pipeline(v') == Pipeline(v);
      case _ =>
    }
  }

  lemma {:induction false} KeepsLeaving(
      peers: seq<Device>, run: seq<State>, labels: seq<Label>, m: nat, n: nat, i: nat, epoch: nat)
    requires IsRun(peers, run, labels) && m <= n < |run| && i < MAX_CONNECTIONS
    requires IsSized(run[m]) && epoch <= run[m].epochs[i] && IsLeaving(ViewOf(run[m], i), epoch)
    ensures IsSized(run[n]) && epoch <= run[n].epochs[i] && IsLeaving(ViewOf(run[n], i), epoch)
    decreases n
  {
    if m < n {
      KeepsLeaving(peers, run, labels, m, n - 1, i, epoch);
      RunKeepsInvariant(peers, run, labels, n - 1);
      assert LocalInvariant(i, ViewOf(run[n - 1], i));
      var step := ProjectsToLocalStep(run[n - 1], labels[n - 1], i);
      StepLeaves(i, ViewOf(run[n - 1], i), step, epoch);
    }
  }

  /**
   A request that ends the link of a slot takes effect: whenever the slot is settled after the
   request was taken, it is free or occupied anew, whatever happened in between.
   */
  lemma EndedLinkIsGone(peers: seq<Device>, run: seq<State>, labels: seq<Label>, m: nat, n: nat, i: nat)
    requires IsRun(peers, run, labels) && m < n < |run| && labels[m] == TakeRequest && i < MAX_CONNECTIONS
    requires Ends(run[m], i)
    ensures IsSized(run[m]) && IsSized(run[n])
    ensures IsSettled(run[n], i) ==> !C.IsOccupied(run[n].table[i]) || run[n].epochs[i] > run[m].epochs[i]
  {
    RequestPlans(peers, run, labels, m, i);
    RunKeepsInvariant(peers, run, labels, m + 1);
    var epoch := run[m].epochs[i];
    assert Disconnect(epoch) in Pipeline(ViewOf(run[m + 1], i));
    KeepsLeaving(peers, run, labels, m + 1, n, i, epoch);
  }
}
