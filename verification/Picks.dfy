/**
 When the device that the user picked is the one the coordinator acts on, in every continuation
 of a reachable state, and when some continuation replaces it.
 */
module Picks {
  import opened Types
  import opened Scanner
  import opened Protocol
  import opened SlotRuns
  import opened Traces
  import opened UiRuns
  import opened UiTheorems
  import opened Continuations
  import C = Coordinator
  import U = Ui

  // ─── Serving requests ──────────────────────────────────────────────────────

  lemma RequestWork(s: State)
    requires s.todo == [] && s.requests != []
    ensures var t := OnRequest(s);
            && (ScanPending(t.todo) <==> s.requests[0].command.StartScan?)
            && (!ScanPending(t.todo) ==> CurrentList(t) == s.lastScan)
  {
    match s.requests[0].command {
      case StartScan => StartScanWork(s.table, s.epochs);
      case Connect(index) => ConnectOutcome(s.table, s.lastScan, index, OnRequest(s).epochs);
      case Disconnect => DisconnectWork(s.table, s.epochs);
    }
  }

  /** The list after a request was served, when every scan ends with `result`. */
  function Served(list: seq<Device>, q: Request, result: Option<seq<Device>>): seq<Device> {
    if q.command.StartScan? then Remembered(result) else list
  }

  /** An idle coordinator takes its next request; a stopped UI goes on. */
  lemma TakesOne(s: State) returns (t: State)
    requires Good(s) && s.todo == [] && s.requests != []
    ensures Goes(s, 1, t) && Good(t) && UiFree(t) && s.requests[1..] <= t.requests
    ensures t.todo == OnRequest(s).todo && t.lastScan == s.lastScan
  {
    var u := OnRequest(s);
    GoesStep(s, TakeRequest);
    StepKeepsGood(s, TakeRequest);
    assert u.requests == s.requests[1..] && u.lastScan == s.lastScan;
    t := UiGoesOn(u);
    GoesTwo(s, 1, u, 0, t);
  }

  lemma ServedList(s: State, u: State, result: Option<seq<Device>>)
    requires s.todo == [] && s.requests != [] && u.todo == OnRequest(s).todo && u.lastScan == s.lastScan
    ensures (if ScanPending(u.todo) then Remembered(result) else CurrentList(u)) == Served(s.lastScan, s.requests[0], result)
  {
    RequestWork(s);
    assert CurrentList(u) == CurrentList(OnRequest(s));
  }

  /** An idle coordinator takes its next request and gets to the end of the work. */
  lemma ServesOne(s: State, result: Option<seq<Device>>) returns (t: State)
    requires Good(s) && s.todo == [] && s.requests != [] && IsScanResult(result)
    ensures Goes(s, 1, t) && Good(t) && t.todo == [] && s.requests[1..] <= t.requests
    ensures t.lastScan == Served(s.lastScan, s.requests[0], result)
  {
    var u := TakesOne(s);
    ServedList(s, u, result);
    t := Finishes(u, result);
    GoesTwo(s, 1, u, 0, t);
  }

  /** A StartScan is among the first `k` requests. */
  predicate ScanAhead(requests: seq<Request>, k: nat) {
    exists j | 0 <= j < k && j < |requests| :: requests[j].command.StartScan?
  }

  lemma ScanAheadFirst(requests: seq<Request>, k: nat)
    requires 0 < k <= |requests|
    ensures ScanAhead(requests, k) <==> requests[0].command.StartScan? || ScanAhead(requests[1..], k - 1)
  {
    var tail := requests[1..];
    if j :| 0 < j < k && requests[j].command.StartScan? {
      assert tail[j - 1].command.StartScan?;
    }
    if j :| 0 <= j < k - 1 && tail[j].command.StartScan? {
      assert requests[j + 1].command.StartScan?;
    }
  }

  lemma ScanAheadPrefix(requests: seq<Request>, longer: seq<Request>, k: nat)
    requires requests <= longer && k <= |requests|
    ensures ScanAhead(requests, k) <==> ScanAhead(longer, k)
  {}

  /** The coordinator serves `k` requests, every scan among them ending with `result`. */
  lemma {:induction false} Serves(s: State, k: nat, result: Option<seq<Device>>) returns (t: State)
    requires Good(s) && s.todo == [] && k <= |s.requests| && IsScanResult(result)
    ensures Goes(s, k, t) && t.todo == [] && s.requests[k..] <= t.requests
    ensures t.lastScan == if ScanAhead(s.requests, k) then Remembered(result) else s.lastScan
    decreases k
  {
    if k == 0 {
      GoesSelf(s);
      t := s;
    } else {
      var u := ServesOne(s, result);
      ScanAheadFirst(s.requests, k);
      ScanAheadPrefix(s.requests[1..], u.requests, k - 1);
      t := Serves(u, k - 1, result);
      GoesTwo(s, 1, u, k - 1, t);
      assert s.requests[k..] == s.requests[1..][k - 1..] <= u.requests[k - 1..];
    }
  }

  // ─── Continuations up to a pick ────────────────────────────────────────────

  /** `t` is a continuation of `s` in which the coordinator is about to take request `k` of `s`. */
  ghost predicate AboutToTake(s: State, k: nat, t: State) {
    Goes(s, k, t) && t.todo == []
  }

  lemma {:induction false} RequestsQueueUp(s: State, labels: seq<Label>)
    requires After(Step, s, labels).Some? && Takes(labels) <= |s.requests|
    ensures s.requests[Takes(labels)..] <= After(Step, s, labels).value.requests
    decreases |labels|
  {
    if labels != [] {
      var l, t := labels[0], Step(s, labels[0]).value;
      RequestsStep(s, l, t);
      RequestsQueueUp(t, labels[1..]);
      var n := C.Count(l.TakeRequest?);
      assert s.requests[Takes(labels)..] == s.requests[n..][Takes(labels) - n..];
      assert s.requests[n..] <= t.requests;
    }
  }

  lemma RequestsStep(s: State, l: Label, t: State)
    requires Step(s, l) == Some(t)
    ensures C.Count(l.TakeRequest?) <= |s.requests| && s.requests[C.Count(l.TakeRequest?)..] <= t.requests
  {
    if IsWorkerLabel(l) {
      WorkerLeavesUi(s, l);
    }
  }

  /** The request about to be taken is the one that stood at place `k`. */
  lemma TakesThatRequest(s: State, k: nat, t: State)
    requires AboutToTake(s, k, t) && k < |s.requests|
    ensures t.requests != [] && t.requests[0] == s.requests[k]
  {
    var labels :| After(Step, s, labels) == Some(t) && Takes(labels) == k;
    RequestsQueueUp(s, labels);
    assert s.requests[k..][0] == s.requests[k];
  }

  /** Without a scan pending or started, no step changes the list. */
  lemma ListStays(s: State, l: Label)
    requires Good(s) && Enabled(s, l) && !ScanPending(s.todo)
    requires l.TakeRequest? ==> !s.requests[0].command.StartScan?
    ensures !ScanPending(Next(s, l).todo) && CurrentList(Next(s, l)) == CurrentList(s)
  {
    if IsWorkerLabel(l) || IsUiLabel(l) {
      OthersKeepTruth(s, l);
    } else if l.TakeRequest? {
      RequestWork(s);
    } else if l.TakeEvent? {
      EventWork(s.table, s.events[0], s.epochs);
    } else if l.ExecuteNext? {
      BootReservesFree(s);
      ExecuteKeepsTruth(s);
    }
  }

  lemma {:induction false} ListStaysAlong(s: State, labels: seq<Label>)
    requires Good(s) && After(Step, s, labels).Some? && Takes(labels) <= |s.requests|
    requires !ScanPending(s.todo) && !ScanAhead(s.requests, Takes(labels))
    ensures !ScanPending(After(Step, s, labels).value.todo)
    ensures CurrentList(After(Step, s, labels).value) == CurrentList(s)
    decreases |labels|
  {
    if labels != [] {
      var l, t, k := labels[0], Step(s, labels[0]).value, Takes(labels[1..]);
      RequestsStep(s, l, t);
      StepKeepsGood(s, l);
      if l.TakeRequest? {
        ScanAheadFirst(s.requests, k + 1);
        ScanAheadPrefix(s.requests[1..], t.requests, k);
      } else {
        ScanAheadPrefix(s.requests, t.requests, k);
      }
      ListStays(s, l);
      ListStaysAlong(t, labels[1..]);
    }
  }

  // ─── Safe and stale picks ──────────────────────────────────────────────────

  /** Row `i` of the list is the device `d`. */
  predicate HoldsRow(list: seq<Device>, i: nat, d: Option<Device>) {
    i < |list| && d == Some(list[i])
  }

  function Filler(kind: AddressType, n: u8): Device {
    Device(Address(kind, [n, 0, 0, 0, 0, 0]), "", 0)
  }

  /** A scan result with `b` in row `i`. */
  function ListWith(b: Device, i: nat): (list: seq<Device>)
    requires i < U.MAX_LISTED
  {
    var kind := if b.address.kind.Public? then RandomStatic else Public;
    seq(i, n requires 0 <= n < i => Filler(kind, n)) + [b]
  }

  lemma ListWithIsResult(b: Device, i: nat)
    requires i < U.MAX_LISTED
    ensures IsScanResult(Some(ListWith(b, i))) && HoldsRow(ListWith(b, i), i, Some(b))
  {
    var list := ListWith(b, i);
    forall m, n | 0 <= m < n < |list|
      ensures list[m].address != list[n].address
    {
      var kind := if b.address.kind.Public? then RandomStatic else Public;
      assert list[m] == Filler(kind, m) && Filler(kind, m).address.bytes[0] == m;
      if n < i {
        assert list[n] == Filler(kind, n) && Filler(kind, n).address.bytes[0] == n;
      }
    }
  }

  /**
   With a StartScan queued ahead of a pick, any device `b` can end up in the picked row by the
   time the coordinator takes the pick, whatever it is doing and waiting for now.
   */
  lemma ScanAheadReplacesRow(s: State, k: nat, b: Device) returns (t: State)
    requires Good(s) && !Doomed(s) && k < |s.requests| && ScanAhead(s.requests, k)
    requires s.requests[k].command.Connect? && s.requests[k].command.index < U.MAX_LISTED
    ensures AboutToTake(s, k, t) && HoldsRow(t.lastScan, s.requests[k].command.index, Some(b))
  {
    var i := s.requests[k].command.index;
    ListWithIsResult(b, i);
    var u := GetsIdle(s);
    ScanAheadPrefix(s.requests, u.requests, k);
    t := Serves(u, k, Some(ListWith(b, i)));
    GoesTwo(s, 0, u, k, t);
  }

  /** Without one, the list at that time is known now, and there is such a time. */
  lemma NoScanAheadKeepsList(s: State, k: nat) returns (t: State)
    requires Good(s) && !Doomed(s) && k < |s.requests| && !ScanAhead(s.requests, k)
    ensures AboutToTake(s, k, t) && t.lastScan == if ScanPending(s.todo) then [] else CurrentList(s)
    ensures !ScanPending(s.todo) ==> forall v | AboutToTake(s, k, v) :: v.lastScan == CurrentList(s)
  {
    var u := GetsIdle(s);
    ScanAheadPrefix(s.requests, u.requests, k);
    t := Serves(u, k, None);
    GoesTwo(s, 0, u, k, t);
    if !ScanPending(s.todo) {
      forall v | AboutToTake(s, k, v)
        ensures v.lastScan == CurrentList(s)
      {
        var labels :| After(Step, s, labels) == Some(v) && Takes(labels) == k;
        ListStaysAlong(s, labels);
      }
    }
  }

  ghost predicate IsSafe(s: State, k: nat)
    requires k < |s.requests| && s.requests[k].command.Connect?
  {
    forall t | AboutToTake(s, k, t) :: HoldsRow(t.lastScan, s.requests[k].command.index, s.requests[k].picked)
  }

  /** In some continuation row `i` holds `b` when request `k` is taken. */
  ghost predicate CanHold(s: State, k: nat, i: nat, b: Device) {
    exists t :: AboutToTake(s, k, t) && HoldsRow(t.lastScan, i, Some(b))
  }

  lemma OtherDevice(d: Option<Device>) returns (b: Device)
    ensures Some(b) != d
  {
    b := Filler(Public, 0);
    if d == Some(b) {
      b := Filler(Public, 1);
      assert b.address.bytes[0] == 1;
    }
  }

  lemma SafeIff(s: State, k: nat)
    requires Good(s) && !Doomed(s) && k < |s.requests|
    requires s.requests[k].command.Connect? && s.requests[k].command.index < U.MAX_LISTED
    ensures IsSafe(s, k) <==>
            && !ScanAhead(s.requests, k) && !ScanPending(s.todo)
            && HoldsRow(CurrentList(s), s.requests[k].command.index, s.requests[k].picked)
  {
    if ScanAhead(s.requests, k) {
      var b := OtherDevice(s.requests[k].picked);
      var t := ScanAheadReplacesRow(s, k, b);
    } else {
      var t := NoScanAheadKeepsList(s, k);
    }
  }

  /**
   The request about to be taken in a continuation that has taken `k` others is the pick. The
   pick reaches the coordinator with the picked device in its row, in every
   continuation of a reachable state, exactly if no StartScan is queued ahead of it, no scan is
   under way, and the row is right now. The one exception is a doomed state, from which the
   pick is never taken at all.
   */
  lemma PickIsSafeIff(peers: seq<Device>, run: seq<State>, labels: seq<Label>, n: nat, k: nat)
    requires IsRun(peers, run, labels) && n < |run|
    requires k < |run[n].requests| && run[n].requests[k].command.Connect?
    ensures forall t | AboutToTake(run[n], k, t) :: t.requests != [] && t.requests[0] == run[n].requests[k]
    ensures Doomed(run[n]) <==> forall t :: !AboutToTake(run[n], k, t)
    ensures !Doomed(run[n]) ==>
              var s, q := run[n], run[n].requests[k];
              (IsSafe(s, k) <==> !ScanAhead(s.requests, k) && !ScanPending(s.todo)
                                 && HoldsRow(CurrentList(s), q.command.index, q.picked))
    ensures !Doomed(run[n]) && ScanAhead(run[n].requests, k) ==>
              forall b: Device :: CanHold(run[n], k, run[n].requests[k].command.index, b)
  {
    var s := run[n];
    RunKeepsInvariant(peers, run, labels, n);
    RunKeepsAgreement(peers, run, labels, n);
    RunKeepsScreen(peers, run, labels, n);
    assert RequestFits(s.requests[k], s.ui.seen, Truth(s));
    forall t | AboutToTake(s, k, t)
      ensures t.requests != [] && t.requests[0] == s.requests[k]
    {
      TakesThatRequest(s, k, t);
    }
    if Doomed(s) {
      forall t
        ensures !AboutToTake(s, k, t)
      {
        if AboutToTake(s, k, t) {
          var steps :| After(Step, s, steps) == Some(t) && Takes(steps) == k;
          DoomedForGood(s, steps);
        }
      }
    } else {
      SafeIff(s, k);
      if !ScanAhead(s.requests, k) {
        var t := NoScanAheadKeepsList(s, k);
      } else {
        var t := ScanAheadReplacesRow(s, k, Filler(Public, 0));
        forall b: Device
          ensures CanHold(s, k, s.requests[k].command.index, b)
        {
          var v := ScanAheadReplacesRow(s, k, b);
        }
      }
    }
  }
}
