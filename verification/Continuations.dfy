/**
 Where an execution can go on to. From any reachable state the coordinator can get to the end
 of its work, whatever it waits for, unless the UI is stopped and the events still to be
 published do not fit: then it never will.
 */
module Continuations {
  import opened Types
  import opened Scanner
  import opened Reconnect
  import opened Protocol
  import opened SlotRuns
  import opened SlotTheorems
  import opened Traces
  import opened UiRuns
  import C = Coordinator
  import U = Ui

  /** What every run keeps. */
  ghost predicate Good(s: State) {
    Invariant(s) && Agrees(s)
  }

  lemma StepKeepsGood(s: State, l: Label)
    requires Good(s) && Enabled(s, l)
    ensures Good(Next(s, l))
  {
    StepKeepsInvariant(s, l);
    StepKeepsAgreement(s, l);
  }

  // ─── Executions that take a number of requests ─────────────────────────────

  function Takes(labels: seq<Label>): nat {
    if labels == [] then 0 else C.Count(labels[0].TakeRequest?) + Takes(labels[1..])
  }

  lemma {:induction false} TakesConcat(a: seq<Label>, b: seq<Label>)
    ensures Takes(a + b) == Takes(a) + Takes(b)
  {
    if a == [] {
      assert a + b == b;
    } else {
      assert (a + b)[0] == a[0] && (a + b)[1..] == a[1..] + b;
      TakesConcat(a[1..], b);
    }
  }

  lemma {:induction false} TakesNone(labels: seq<Label>)
    requires forall l | l in labels :: !l.TakeRequest?
    ensures Takes(labels) == 0
  {
    if labels != [] {
      assert labels[0] in labels;
      TakesNone(labels[1..]);
    }
  }

  /** `t` can be reached while the coordinator takes `k` requests. */
  ghost predicate Goes(s: State, k: nat, t: State) {
    exists labels :: After(Step, s, labels) == Some(t) && Takes(labels) == k
  }

  lemma GoesSelf(s: State)
    ensures Goes(s, 0, s)
  {
    assert After(Step, s, []) == Some(s) && Takes([]) == 0;
  }

  lemma GoesStep(s: State, l: Label)
    requires Enabled(s, l)
    ensures Goes(s, C.Count(l.TakeRequest?), Next(s, l))
  {
    TakeOne(s, l);
    assert [l][1..] == [];
    assert Takes([l]) == C.Count(l.TakeRequest?);
  }

  lemma GoesTwo(s: State, j: nat, t: State, k: nat, u: State)
    requires Goes(s, j, t) && Goes(t, k, u)
    ensures Goes(s, j + k, u)
  {
    var a :| After(Step, s, a) == Some(t) && Takes(a) == j;
    var b :| After(Step, t, b) == Some(u) && Takes(b) == k;
    AfterConcat(Step, s, a, b);
    TakesConcat(a, b);
  }

  // ─── Finishing the work ────────────────────────────────────────────────────

  /** Nothing changed that the coordinator's work depends on. */
  predicate SameWork(s: State, t: State) {
    && t.todo == s.todo && t.requests == s.requests && t.table == s.table && t.lastScan == s.lastScan
    && t.scans == s.scans && t.ui.sending == s.ui.sending
  }

  predicate UiFree(s: State) {
    s.ui.sending.None?
  }

  ghost predicate WorkerMoved(s: State, t: State) {
    Good(t) && SameWork(s, t) && t.published == s.published
  }

  lemma WorkersMove(s: State, labels: seq<Label>)
    requires Good(s) && After(Step, s, labels).Some? && forall l | l in labels :: IsWorkerLabel(l)
    ensures var t := After(Step, s, labels).value; WorkerMoved(s, t) && Goes(s, 0, t)
  {
    forall t, l | WorkerMoved(s, t) && IsWorkerLabel(l) && Step(t, l).Some?
      ensures WorkerMoved(s, Step(t, l).value)
    {
      StepKeepsGood(t, l);
      WorkerLeavesUi(t, l);
    }
    AfterKeeps(Step, t => WorkerMoved(s, t), l => IsWorkerLabel(l), s, labels);
    TakesNone(labels);
  }

  /** A worker the coordinator waits for reads a command, its connection attempt failing if need be. */
  lemma WorkerMakesRoom(s: State, i: nat) returns (t: State)
    requires Good(s) && i < MAX_CONNECTIONS && AwaitsWorker(s, i)
    ensures Goes(s, 0, t) && WorkerMoved(s, t) && CanExecute(t, s.todo[0])
  {
    var labels: seq<Label>;
    if s.workers[i].phase.Establishing? {
      var l := LinkFailed(i, C.ConnectFailed);
      DrainsAfterOutcome(s, i, l);
      labels := [l] + ReadNext(i, Next(s, l).workers[i].phase);
    } else {
      DrainsByReading(s, i);
      labels := ReadNext(i, s.workers[i].phase);
    }
    assert OwnSteps(labels, i) && Frees(s, labels);
    WorkersMove(s, labels);
    t := After(Step, s, labels).value;
  }

  /** The next operation becomes executable: a worker reads, or the UI shows an event. */
  lemma MakesRoom(s: State) returns (t: State)
    requires Good(s) && s.todo != [] && !IsScanOp(s.todo[0])
    requires UiFree(s) || EventOf(s.todo[0]).None? || |s.published| < UI_EVENTS
    ensures Goes(s, 0, t) && Good(t) && SameWork(s, t) && CanExecute(t, s.todo[0])
    ensures !UiFree(s) ==> t.published == s.published
  {
    var op := s.todo[0];
    assert op in s.todo && IsSound(op);
    if CanExecute(s, op) {
      GoesSelf(s);
      t := s;
    } else if EventOf(op).Some? {
      GoesStep(s, ShowEvent);
      StepKeepsGood(s, ShowEvent);
      t := Next(s, ShowEvent);
    } else {
      assert op.Do? && (op.action.DisconnectSlot? || op.action.ConnectSlot?);
      assert AwaitsWorker(s, op.action.slot);
      t := WorkerMakesRoom(s, op.action.slot);
    }
  }

  /** The table after the operations: boot's reservations are the only ones that write it. */
  function TableAfter(t: C.Table, ops: seq<Op>): C.Table
    decreases |ops|
  {
    if ops == [] then t
    else if ops[0].BootReserve? then TableAfter(C.SetSlot(t, ops[0].slot, C.Connecting(ops[0].device)), ops[1..])
    else TableAfter(t, ops[1..])
  }

  /** The list after the operations. */
  function ListAfter(list: seq<Device>, ops: seq<Op>): seq<Device>
    decreases |ops|
  {
    if ops == [] then list
    else ListAfter(if ops[0].Remember? then ops[0].devices else list, ops[1..])
  }

  /** A reservation takes two steps. */
  function Weight(ops: seq<Op>): nat {
    if ops == [] then 0 else (if ops[0].BootReserve? then 2 else 1) + Weight(ops[1..])
  }

  /** What is left of the work once its first operation is executed. */
  function Rest(s: State, ops: seq<Op>): seq<Op>
    requires ops != []
  {
    match ops[0]
    case BootReserve(i, d) => [Do(C.ConnectSlot(i, d), if i < |s.epochs| then s.epochs[i] + 1 else 0)] + ops[1..]
    case _ => ops[1..]
  }

  lemma RestMeaning(s: State, ops: seq<Op>, table: C.Table, list: seq<Device>)
    requires ops != [] && !IsScanOp(ops[0])
    ensures var rest := Rest(s, ops);
            && Weight(rest) < Weight(ops)
            && TableAfter(table, ops)
               == TableAfter(if ops[0].BootReserve? then C.SetSlot(table, ops[0].slot, C.Connecting(ops[0].device)) else table, rest)
            && ListAfter(list, ops) == ListAfter(if ops[0].Remember? then ops[0].devices else list, rest)
            && Upcoming(ops) == (if EventOf(ops[0]).Some? then [EventOf(ops[0]).value] + Upcoming(rest) else Upcoming(rest))
  {
    if ops[0].BootReserve? {
      assert Rest(s, ops)[1..] == ops[1..];
    }
  }

  lemma ExecuteMeaning(s: State, ops: seq<Op>, rest: seq<Op>)
    requires IsSized(s) && ops != [] && s.todo == ops + rest && Enabled(s, ExecuteNext)
    ensures var t, op := Execute(s), ops[0];
            && t.todo == Rest(s, ops) + rest
            && t.requests == s.requests && t.ui == s.ui && t.scans == s.scans
            && t.table == (if op.BootReserve? then C.SetSlot(s.table, op.slot, C.Connecting(op.device)) else s.table)
            && t.lastScan == (if op.Remember? then op.devices else s.lastScan)
            && t.published == (if EventOf(op).Some? then s.published + [EventOf(op).value] else s.published)
  {
    assert s.todo[0] == ops[0] && s.todo[1..] == ops[1..] + rest;
  }

  /** The coordinator's work after one of the operations `ops`. */
  ghost predicate OneDone(s: State, ops: seq<Op>, rest: seq<Op>, t: State, left: seq<Op>)
    requires ops != []
  {
    var op := ops[0];
    && Good(t) && t.todo == left + rest && (forall o | o in left :: o in ops || o.Do?)
    && t.requests == s.requests && t.scans == s.scans && t.ui.sending == s.ui.sending
    && t.table == (if op.BootReserve? then C.SetSlot(s.table, op.slot, C.Connecting(op.device)) else s.table)
    && t.lastScan == (if op.Remember? then op.devices else s.lastScan)
    && (!UiFree(s) ==> |t.published| == |s.published| + C.Count(EventOf(op).Some?))
  }

  lemma ExecutesOne(s: State, ops: seq<Op>, rest: seq<Op>)
    requires Good(s) && ops != [] && s.todo == ops + rest && Enabled(s, ExecuteNext)
    ensures Goes(s, 0, Execute(s)) && OneDone(s, ops, rest, Execute(s), Rest(s, ops))
  {
    ExecuteMeaning(s, ops, rest);
    GoesStep(s, ExecuteNext);
    StepKeepsGood(s, ExecuteNext);
  }

  lemma DoOne(s: State, ops: seq<Op>, rest: seq<Op>) returns (t: State, left: seq<Op>)
    requires Good(s) && ops != [] && s.todo == ops + rest && !IsScanOp(ops[0])
    requires UiFree(s) || EventOf(ops[0]).None? || |s.published| < UI_EVENTS
    ensures Goes(s, 0, t) && OneDone(s, ops, rest, t, left)
    ensures Weight(left) < Weight(ops) && |Upcoming(ops)| == C.Count(EventOf(ops[0]).Some?) + |Upcoming(left)|
    ensures TableAfter(s.table, ops) == TableAfter(t.table, left) && ListAfter(s.lastScan, ops) == ListAfter(t.lastScan, left)
  {
    assert s.todo[0] == ops[0];
    var u := MakesRoom(s);
    left := Rest(u, ops);
    t := Execute(u);
    ExecutesOne(u, ops, rest);
    GoesTwo(s, 0, u, 0, t);
    RestMeaning(u, ops, s.table, s.lastScan);
  }

  /** The coordinator does the operations `ops` and has `rest` left. */
  lemma {:induction false} DoAll(s: State, ops: seq<Op>, rest: seq<Op>) returns (t: State)
    requires Good(s) && s.todo == ops + rest && forall op | op in ops :: !IsScanOp(op)
    requires UiFree(s) || |s.published| + |Upcoming(ops)| <= UI_EVENTS
    ensures Goes(s, 0, t) && Good(t) && t.todo == rest
    ensures t.requests == s.requests && t.scans == s.scans && t.ui.sending == s.ui.sending
    ensures t.table == TableAfter(s.table, ops) && t.lastScan == ListAfter(s.lastScan, ops)
    ensures !UiFree(s) ==> |t.published| == |s.published| + |Upcoming(ops)|
    decreases Weight(ops)
  {
    if ops == [] {
      assert s.todo == rest;
      GoesSelf(s);
      t := s;
    } else {
      assert ops[0] in ops;
      var v, left := DoOne(s, ops, rest);
      t := DoAll(v, left, rest);
      GoesTwo(s, 0, v, 0, t);
    }
  }

  lemma {:induction false} ShapedList(list: seq<Device>, ops: seq<Op>)
    requires IsShaped(ops) && !ScanPending(ops)
    ensures ListAfter(list, ops)
            == if ops != [] && ops[|ops| - 1].Remember? then ops[|ops| - 1].devices else list
    decreases |ops|
  {
    if |ops| == 1 {
      assert ops[1..] == [];
    } else if ops != [] {
      var tail := ops[1..];
      assert forall k | 0 <= k < |tail| :: tail[k] == ops[k + 1];
      ShapedList(list, tail);
    }
  }

  lemma ShapedHasNoScan(ops: seq<Op>)
    requires IsShaped(ops)
    ensures !ScanPending(ops) ==> forall op | op in ops :: !IsScanOp(op)
  {}

  /** How many events the rest of the work publishes if its scan, should one be pending, ends like this. */
  function Remaining(s: State, result: Option<seq<Device>>): nat {
    |Upcoming(s.todo)| + if ScanPending(s.todo) then |Upcoming(ScanReport(result))| else 0
  }

  lemma FinishesPlain(s: State) returns (t: State)
    requires Good(s) && !ScanPending(s.todo)
    requires UiFree(s) || |s.published| + |Upcoming(s.todo)| <= UI_EVENTS
    ensures Goes(s, 0, t) && Good(t) && t.todo == [] && t.lastScan == CurrentList(s)
    ensures t.requests == s.requests && t.scans == s.scans && t.ui.sending == s.ui.sending
    ensures t.table == TableAfter(s.table, s.todo)
  {
    ShapedHasNoScan(s.todo);
    ShapedList(s.lastScan, s.todo);
    assert s.todo == s.todo + [];
    t := DoAll(s, s.todo, []);
  }

  lemma ScanComesLast(ops: seq<Op>, scan: Op)
    requires IsShaped(ops + [scan]) && IsScanOp(scan)
    ensures Upcoming(ops + [scan]) == Upcoming(ops) && forall op | op in ops :: !IsScanOp(op)
  {
    forall op | op in ops
      ensures !IsScanOp(op)
    {
      var k: nat :| k < |ops| && ops[k] == op;
      assert (ops + [scan])[k] == op;
    }
    UpcomingConcat(ops, [scan]);
    Silent([scan]);
  }

  /** A stopped UI goes on once there is room for its request. */
  lemma UiGoesOn(s: State) returns (t: State)
    requires Good(s) && (UiFree(s) || |s.requests| < UI_REQUESTS)
    ensures Goes(s, 0, t) && Good(t) && UiFree(t) && s.requests <= t.requests
    ensures t.todo == s.todo && t.lastScan == s.lastScan
  {
    if UiFree(s) {
      GoesSelf(s);
      t := s;
    } else {
      GoesStep(s, SendRequest);
      StepKeepsGood(s, SendRequest);
      t := Next(s, SendRequest);
    }
  }

  /** The pending scan is all that is left. */
  lemma ReachesScan(s: State) returns (t: State)
    requires Good(s) && ScanPending(s.todo)
    requires UiFree(s) || |s.published| + |Upcoming(s.todo)| <= UI_EVENTS
    ensures Goes(s, 0, t) && Good(t) && t.todo == [s.todo[|s.todo| - 1]]
    ensures t.requests == s.requests && t.scans == s.scans && t.ui.sending == s.ui.sending
    ensures !UiFree(s) ==> |t.published| == |s.published| + |Upcoming(s.todo)|
  {
    var n := |s.todo| - 1;
    var ops, scan := s.todo[..n], s.todo[n];
    assert s.todo == ops + [scan];
    ScanComesLast(ops, scan);
    t := DoAll(s, ops, [scan]);
  }

  lemma ScanEndsWith(s: State, result: Option<seq<Device>>) returns (t: State)
    requires Good(s) && |s.todo| == 1 && IsScanOp(s.todo[0]) && IsScanResult(result)
    ensures Goes(s, 0, t) && Good(t) && t == s.(todo := AfterScan(s.todo[0], result, {}))
  {
    var l := ScanEnds(result, {});
    GoesStep(s, l);
    StepKeepsGood(s, l);
    t := Next(s, l);
    assert s.todo[1..] == [] && t.todo == AfterScan(s.todo[0], result, {});
  }

  lemma ScanFinishes(s: State, result: Option<seq<Device>>) returns (t: State)
    requires Good(s) && |s.todo| == 1 && IsScanOp(s.todo[0]) && IsScanResult(result)
    requires UiFree(s) || |s.published| + |Upcoming(ScanReport(result))| <= UI_EVENTS
    ensures Goes(s, 0, t) && Good(t) && t.todo == [] && t.lastScan == Remembered(result)
    ensures t.requests == s.requests && t.scans == s.scans && t.ui.sending == s.ui.sending
  {
    AfterScanUpcoming(s.todo[0], result, {});
    var v := ScanEndsWith(s, result);
    t := FinishesPlain(v);
    GoesTwo(s, 0, v, 0, t);
  }

  /** The coordinator gets to the end of its work; a pending scan ends as given. */
  lemma Finishes(s: State, result: Option<seq<Device>>) returns (t: State)
    requires Good(s) && IsScanResult(result)
    requires UiFree(s) || |s.published| + Remaining(s, result) <= UI_EVENTS
    ensures Goes(s, 0, t) && Good(t) && t.todo == []
    ensures t.lastScan == if ScanPending(s.todo) then Remembered(result) else CurrentList(s)
    ensures t.requests == s.requests && t.scans == s.scans && t.ui.sending == s.ui.sending
  {
    if ScanPending(s.todo) {
      var u := ReachesScan(s);
      t := ScanFinishes(u, result);
      GoesTwo(s, 0, u, 0, t);
    } else {
      t := FinishesPlain(s);
    }
  }

  // ─── The fate of a state ───────────────────────────────────────────────────

  /** The UI is stopped, and what the coordinator has still to publish does not fit. */
  predicate Doomed(s: State) {
    && s.ui.sending.Some? && |s.requests| == UI_REQUESTS
    && |Stream(s)| + C.Count(ScanPending(s.todo)) > UI_EVENTS
  }

  lemma DoomedStays(s: State, l: Label)
    requires Good(s) && Doomed(s) && Enabled(s, l)
    ensures Doomed(Next(s, l))
  {
    DoomedHasWork(s);
    if IsWorkerLabel(l) {
      WorkerLeavesUi(s, l);
    } else if l.ExecuteNext? {
      ExecuteKeepsStream(s);
      BootReservesFree(s);
      ExecuteKeepsTruth(s);
    } else if l.ScanEnds? {
      DoomedScanEnds(s, l);
    }
  }

  lemma DoomedHasWork(s: State)
    requires Good(s) && Doomed(s)
    ensures s.todo != []
  {}

  lemma ReportNotEmpty(result: Option<seq<Device>>)
    ensures |Upcoming(ScanReport(result))| > 0
    ensures result.None? ==> |Upcoming(ScanReport(result))| == 1
  {
    match result {
      case None => PublishOne(U.Failed(C.ScanFailed));
      case Some(devices) =>
        UpcomingConcat(Found(devices), [Publish(U.ScanComplete)]);
        PublishOne(U.ScanComplete);
    }
  }

  lemma DoomedScanEnds(s: State, l: Label)
    requires Good(s) && Doomed(s) && l.ScanEnds? && Enabled(s, l)
    ensures Doomed(Next(s, l))
  {
    var op := s.todo[0];
    assert s.todo == [op] && op in s.todo;
    Silent([op]);
    ReportNotEmpty(l.result);
    AfterScanUpcoming(op, l.result, l.resolved);
    assert Next(s, l).todo == AfterScan(op, l.result, l.resolved);
  }

  lemma DoomedForGood(s: State, labels: seq<Label>)
    requires Good(s) && Doomed(s) && After(Step, s, labels).Some?
    ensures Doomed(After(Step, s, labels).value) && After(Step, s, labels).value.todo != []
  {
    forall t, l | Good(t) && Doomed(t) && Step(t, l).Some?
      ensures Good(Step(t, l).value) && Doomed(Step(t, l).value)
    {
      StepKeepsGood(t, l);
      DoomedStays(t, l);
    }
    AfterKeeps(Step, t => Good(t) && Doomed(t), l => true, s, labels);
    DoomedHasWork(After(Step, s, labels).value);
  }

  /** Unless doomed, the coordinator gets to the end of its work, a pending scan failing. */
  lemma GetsIdle(s: State) returns (t: State)
    requires Good(s) && !Doomed(s)
    ensures Goes(s, 0, t) && Good(t) && t.todo == [] && s.requests <= t.requests
    ensures t.lastScan == if ScanPending(s.todo) then [] else CurrentList(s)
  {
    ReportNotEmpty(None);
    if UiFree(s) || |s.requests| < UI_REQUESTS {
      var u := UiGoesOn(s);
      t := Finishes(u, None);
      GoesTwo(s, 0, u, 0, t);
    } else {
      t := Finishes(s, None);
    }
  }

  /**
   The coordinator can get to the end of its work from a reachable state, and take its next
   request or event, exactly if the state is not doomed. So a state is past saving exactly from
   the moment the UI is stopped and the events still to come do not fit.
   */
  lemma IdleReachableIff(peers: seq<Device>, run: seq<State>, labels: seq<Label>, n: nat)
    requires IsRun(peers, run, labels) && n < |run|
    ensures (exists t :: Reaches(run[n], t) && t.todo == []) <==> !Doomed(run[n])
  {
    var s := run[n];
    RunKeepsInvariant(peers, run, labels, n);
    RunKeepsAgreement(peers, run, labels, n);
    if Doomed(s) {
      forall t | Reaches(s, t)
        ensures t.todo != []
      {
        var steps :| After(Step, s, steps) == Some(t);
        DoomedForGood(s, steps);
      }
    } else {
      var t := GetsIdle(s);
      assert Reaches(s, t);
    }
  }
}
