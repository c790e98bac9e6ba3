/**
 The wait cycle of the system: the UI waits for room in the request queue while the coordinator
 waits for room in the event queue that only the UI empties. It is permanent and reachable. The
 other way to stop the two is to wait for a worker, which ends with its connection attempt.
 */
module Deadlock {
  import opened Types
  import opened Scanner
  import opened Reconnect
  import opened Protocol
  import opened SlotRuns
  import opened SlotTheorems
  import opened Traces
  import opened Moves
  import opened UiRuns
  import opened Continuations
  import C = Coordinator
  import U = Ui

  predicate Stuck(s: State) {
    && s.ui.sending.Some? && |s.requests| == UI_REQUESTS
    && s.todo != [] && EventOf(s.todo[0]).Some? && |s.published| == UI_EVENTS
  }

  // ─── Characterisation ──────────────────────────────────────────────────────

  /**
   In a reachable state neither the coordinator nor the UI can step exactly if they are stuck
   on each other, or the UI waits for the coordinator and the coordinator for a worker.
   */
  lemma NoStepMeans(peers: seq<Device>, run: seq<State>, labels: seq<Label>, n: nat)
    requires IsRun(peers, run, labels) && n < |run|
    ensures (forall l | !IsWorkerLabel(l) :: !Enabled(run[n], l))
            <==> Stuck(run[n])
                 || (&& run[n].ui.sending.Some? && |run[n].requests| == UI_REQUESTS
                     && exists i | 0 <= i < MAX_CONNECTIONS :: AwaitsWorker(run[n], i))
  {
    var s := run[n];
    RunKeepsInvariant(peers, run, labels, n);
    if forall l | !IsWorkerLabel(l) :: !Enabled(s, l) {
      UiWaits(s);
      assert !Enabled(s, TakeRequest);
      CoordinatorWaits(s);
    } else {
      var l :| !IsWorkerLabel(l) && Enabled(s, l);
      assert s.ui.sending.Some? && |s.requests| == UI_REQUESTS ==> !IsUiLabel(l);
    }
  }

  lemma UiWaits(s: State)
    requires |s.requests| <= UI_REQUESTS && forall l | IsUiLabel(l) :: !Enabled(s, l)
    ensures s.ui.sending.Some? && |s.requests| == UI_REQUESTS
  {
    assert !Enabled(s, Press(U.Select)) && !Enabled(s, SendRequest);
  }

  lemma CoordinatorWaits(s: State)
    requires WithinBounds(s) && s.todo != []
    requires forall l | !IsWorkerLabel(l) :: !Enabled(s, l)
    ensures (EventOf(s.todo[0]).Some? && |s.published| == UI_EVENTS) || AwaitsWorker(s, 0) || AwaitsWorker(s, 1)
  {
    var op := s.todo[0];
    assert op in s.todo && IsSound(op);
    assert IsScanResult(None);
    assert !Enabled(s, ExecuteNext) && !Enabled(s, ScanEnds(None, {}));
    if op.Do? && op.action.DisconnectSlot? {
      assert CommandTo(op, op.action.slot).Some?;
    } else if op.Do? && op.action.ConnectSlot? {
      assert CommandTo(op, op.action.slot).Some?;
    }
  }

  /** Stuck still, with the same screen, table and work. */
  predicate StillStuck(s: State, t: State) {
    Stuck(t) && t.ui == s.ui && t.todo == s.todo && t.table == s.table
  }

  /** Once stuck, whatever the workers do, neither task ever steps again. */
  lemma StuckForGood(s: State, l: Label)
    requires Stuck(s) && Enabled(s, l)
    ensures IsWorkerLabel(l) && StillStuck(s, Next(s, l))
  {
    assert IsWorkerLabel(l) by {
      assert l.TakeRequest? || l.TakeEvent? ==> s.todo == [];
    }
    WorkerLeavesUi(s, l);
  }

  /** A stuck state of a run is stuck at every later one. */
  lemma StuckRunsOn(peers: seq<Device>, run: seq<State>, labels: seq<Label>, n: nat, m: nat)
    requires IsRun(peers, run, labels) && n <= m < |run| && Stuck(run[n])
    ensures StillStuck(run[n], run[m])
  {
    var first := run[n];
    forall s, l | StillStuck(first, s) && Step(s, l).Some?
      ensures StillStuck(first, Step(s, l).value)
    {
      StuckForGood(s, l);
    }
    RunIsPath(peers, run, labels);
    PathKeeps(Step, s => StillStuck(first, s), run, labels, n, m);
  }

  /** A stuck state is doomed, and a doomed one that has come to its end is stuck. */
  lemma StuckIsDoomed(s: State)
    requires Good(s)
    ensures Stuck(s) ==> Doomed(s)
    ensures Doomed(s) && |s.published| == UI_EVENTS && EventOf(s.todo[0]).Some? ==> Stuck(s)
  {
    if Stuck(s) {
      assert |Upcoming(s.todo)| > 0;
    }
  }

  // ─── A run into the deadlock ───────────────────────────────────────────────

  /** The slot's link fails and is reported: two events, and the slot is free again. */
  function Failing(s: State, i: nat): State
    requires i < |s.table| && i < |s.commands|
  {
    s.(table := s.table[i := C.FREE], commands := s.commands[i := []],
       published := s.published + [U.Failed(C.ConnectFailed), U.AllDown])
  }

  ghost predicate AboutToEstablish(s: State, i: nat, d: Device) {
    && s.todo == [] && s.events == [] && IsSized(s) && i < MAX_CONNECTIONS
    && s.workers[i] == IDLE && s.commands[i] == [Connect(d, s.epochs[i])]
  }

  lemma LinkFails(s: State, i: nat, d: Device)
    requires AboutToEstablish(s, i, d)
    ensures Reaches(s, s.(commands := s.commands[i := []], events := [Error(i, C.ConnectFailed)]))
  {
    var e := s.epochs[i];
    assert s.commands[i][1..] == [];
    var s1 := s.(commands := s.commands[i := []], workers := s.workers[i := Worker(Establishing(d, e), None)]);
    ReachesStep(s, TakeCommand(i));
    assert Next(s, TakeCommand(i)) == s1;
    LinkFailsAfter(s1, i, d, e);
    assert s1.workers[i := IDLE] == s.workers;
    ReachesTwo(s, s1, s1.(workers := s1.workers[i := IDLE], events := [Error(i, C.ConnectFailed)]));
  }

  lemma LinkFailsAfter(s: State, i: nat, d: Device, e: nat)
    requires IsSized(s) && i < MAX_CONNECTIONS && s.workers[i] == Worker(Establishing(d, e), None) && s.events == []
    ensures Reaches(s, s.(workers := s.workers[i := IDLE], events := [Error(i, C.ConnectFailed)]))
  {
    var s1 := s.(workers := s.workers[i := Worker(Ending(Failed(C.ConnectFailed), d, e), None)]);
    ReachesStep(s, LinkFailed(i, C.ConnectFailed));
    assert Next(s, LinkFailed(i, C.ConnectFailed)) == s1;
    Then(s, s1, Report(i));
    assert s1.workers[i := IDLE] == s.workers[i := IDLE] && s1.events + [Error(i, C.ConnectFailed)] == [Error(i, C.ConnectFailed)];
    assert Next(s1, Report(i)) == s.(workers := s.workers[i := IDLE], events := [Error(i, C.ConnectFailed)]);
  }

  lemma FailureIsPublished(s: State, i: nat)
    requires s.todo == [] && s.events == [Error(i, C.ConnectFailed)] && i < MAX_CONNECTIONS
    requires C.ActiveCount(s.table[i := C.FREE]) == 0 && |s.published| + 2 <= UI_EVENTS
    ensures Reaches(s, s.(table := s.table[i := C.FREE], events := [],
                          published := s.published + [U.Failed(C.ConnectFailed), U.AllDown]))
  {
    var fail, down := C.Emit(C.Failed(C.ConnectFailed)), C.Emit(C.AllDown);
    var s1 := Next(s, TakeEvent);
    assert s1.todo == [Do(fail, 0), Do(down, 0)] by {
      assert [fail, down][1..] == [down] && [fail] + [down] == [fail, down];
      StampedCons(fail, [down], s.epochs);
      StampedOne(down, s.epochs);
    }
    ReachesStep(s, TakeEvent);
    var s2 := Next(s1, ExecuteNext);
    assert s1.todo[1..] == [Do(down, 0)] && s2.todo[1..] == [] && s.events[1..] == [];
    Then(s, s1, ExecuteNext);
    Then(s, s2, ExecuteNext);
    assert s.published + [U.Failed(C.ConnectFailed)] + [U.AllDown] == s.published + [U.Failed(C.ConnectFailed), U.AllDown];
  }

  lemma SlotFails(s: State, i: nat, d: Device)
    requires AboutToEstablish(s, i, d)
    requires C.ActiveCount(s.table[i := C.FREE]) == 0 && |s.published| + 2 <= UI_EVENTS
    ensures Reaches(s, Failing(s, i))
  {
    LinkFails(s, i, d);
    var t := s.(commands := s.commands[i := []], events := [Error(i, C.ConnectFailed)]);
    FailureIsPublished(t, i);
    ReachesTwo(s, t, Failing(s, i));
  }

  predicate IsRetryEvent(e: U.BleEvent) {
    e.Failed? || e.AllDown?
  }

  /** The user sees a failure or the home screen and asks for a scan. */
  lemma UserRetries(s: State) returns (t: State)
    requires s.published != [] && IsRetryEvent(s.published[0]) && s.ui.sending.None?
    ensures Reaches(s, t) && t.ui.sending.Some?
    ensures t == s.(published := s.published[1..], ui := t.ui)
  {
    var u := s.(published := s.published[1..], ui := UiShown(s.ui, s.published[0]));
    assert s.published == [s.published[0]] + s.published[1..];
    Shows(s, s.published[0], s.published[1..]);
    Presses(u, U.Select);
    t := u.(ui := UiPressed(u.ui, U.Select));
    ReachesTwo(s, u, t);
  }

  /** Five failures in a row, each answered by a press: four requests queued, one waiting. */
  lemma {:induction false} UserKeepsRetrying(s: State) returns (t: State)
    requires |s.requests| + |s.published| == UI_REQUESTS + 1 && s.published != [] && s.ui.sending.None?
    requires forall e | e in s.published :: IsRetryEvent(e)
    ensures Reaches(s, t) && t.ui.sending.Some? && |t.requests| == UI_REQUESTS
    ensures t == s.(published := [], requests := t.requests, ui := t.ui)
    decreases |s.published|
  {
    t := UserRetries(s);
    if |s.published| > 1 {
      Sends(t);
      var u := t.(requests := t.requests + [t.ui.sending.value], ui := t.ui.(sending := None));
      ReachesTwo(s, t, u);
      assert forall e | e in u.published :: e in s.published;
      t := UserKeepsRetrying(u);
      ReachesTwo(s, u, t);
    }
  }

  /** Boot with two peers and a failed scan: both slots are reserved for the stored devices. */
  function Booted(a: Device, b: Device): State {
    Initial([a, b]).(
      table := [C.Connecting(a), C.Connecting(b)], epochs := [1, 1], todo := [],
      commands := [[Connect(a, 1)], [Connect(b, 1)]],
      published := [U.ScanStarted, U.Failed(C.ScanFailed)])
  }

  lemma NothingScanned(a: Device, b: Device)
    ensures BootDevices([a, b], [], {}) == [a, b]
  {
    TwoTargets([a, b], [], {});
  }

  lemma ScanFails(a: Device, b: Device)
    ensures Reaches(Initial([a, b]),
                    Initial([a, b]).(published := [U.ScanStarted],
                                     todo := [Publish(U.Failed(C.ScanFailed)), BootReserve(0, a), BootReserve(1, b), Remember([])]))
  {
    var s := Initial([a, b]);
    var s1 := Next(s, ExecuteNext);
    ReachesStep(s, ExecuteNext);
    assert s1.todo == [BootScan([a, b])] && s1.published == [U.ScanStarted];
    NothingScanned(a, b);
    assert Reserves([a, b], 2) == [] && Reserves([a, b], 1) == [BootReserve(1, b)] + [];
    assert Reserves([a, b], 0) == [BootReserve(0, a)] + Reserves([a, b], 1);
    assert AfterScan(s1.todo[0], None, {}) + s1.todo[1..]
           == [Publish(U.Failed(C.ScanFailed)), BootReserve(0, a), BootReserve(1, b), Remember([])];
    Then(s, s1, ScanEnds(None, {}));
  }

  /** Boot after its failed scan, with `rest` still to do and nothing reserved yet. */
  function Booting(a: Device, b: Device, rest: seq<Op>): State {
    Initial([a, b]).(published := [U.ScanStarted, U.Failed(C.ScanFailed)], todo := rest)
  }

  lemma BootsUpToReserving(a: Device, b: Device)
    ensures Reaches(Initial([a, b]), Booting(a, b, [BootReserve(0, a), BootReserve(1, b), Remember([])]))
  {
    var rest := [BootReserve(0, a), BootReserve(1, b), Remember([])];
    var s1 := Initial([a, b]).(published := [U.ScanStarted], todo := [Publish(U.Failed(C.ScanFailed))] + rest);
    ScanFails(a, b);
    assert s1.todo == [Publish(U.Failed(C.ScanFailed)), BootReserve(0, a), BootReserve(1, b), Remember([])];
    assert s1.todo[1..] == rest;
    Then(Initial([a, b]), s1, ExecuteNext);
    assert Next(s1, ExecuteNext) == Booting(a, b, rest);
  }

  lemma BootsBothSlots(a: Device, b: Device)
    ensures Reaches(Booting(a, b, [BootReserve(0, a), BootReserve(1, b), Remember([])]),
                    Booted(a, b).(todo := [Remember([])]))
  {
    var last, rest := [Remember([])], [BootReserve(1, b), Remember([])];
    var s := Booting(a, b, [BootReserve(0, a), BootReserve(1, b), Remember([])]);
    assert s.todo == [BootReserve(0, a)] + rest && rest == [BootReserve(1, b)] + last;
    BootReserves(s, 0, a, rest);
    var t := s.(table := [C.Connecting(a), C.FREE], epochs := [1, 0], commands := [[Connect(a, 1)], []], todo := rest);
    assert s.(table := s.table[0 := C.Connecting(a)], epochs := s.epochs[0 := 1],
              commands := s.commands[0 := [Connect(a, 1)]], todo := rest) == t;
    BootReserves(t, 1, b, last);
    assert t.(table := t.table[1 := C.Connecting(b)], epochs := t.epochs[1 := 1],
              commands := t.commands[1 := [Connect(b, 1)]], todo := last) == Booted(a, b).(todo := last);
    ReachesTwo(s, t, Booted(a, b).(todo := last));
  }

  lemma Boots(a: Device, b: Device)
    ensures Reaches(Initial([a, b]), Booted(a, b))
  {
    var s := Booting(a, b, [BootReserve(0, a), BootReserve(1, b), Remember([])]);
    var t := Booted(a, b).(todo := [Remember([])]);
    BootsUpToReserving(a, b);
    BootsBothSlots(a, b);
    ReachesTwo(Initial([a, b]), s, t);
    assert t.todo[1..] == [];
    Then(Initial([a, b]), t, ExecuteNext);
  }

  /** After boot both links fail before the user looks; then the user asks for a scan. */
  function BothFailed(a: Device, b: Device): State {
    Failing(Failing(Booted(a, b), 0), 1)
  }

  lemma BothFail(a: Device, b: Device)
    ensures Reaches(Initial([a, b]), BothFailed(a, b))
  {
    var s := Booted(a, b);
    var t := Failing(s, 0);
    Boots(a, b);
    SlotFails(s, 0, a);
    ReachesTwo(Initial([a, b]), s, t);
    SlotFails(t, 1, b);
    ReachesTwo(Initial([a, b]), t, BothFailed(a, b));
  }

  /** The user, still on the home screen, asks for a scan; the coordinator begins it. */
  lemma UserScans(s: State) returns (t: State)
    requires s.ui == Initial([]).ui && s.requests == [] && s.todo == [] && s.table == [C.FREE, C.FREE]
    requires s.published != [] && s.published[0] == U.ScanStarted
    ensures Reaches(s, t) && t.ui.sending.None? && t.requests == [] && t.todo == [Publish(U.ScanStarted), Scan]
    ensures t.published == s.published[1..]
  {
    var asks := UiPressed(s.ui, U.Select);
    Presses(s, U.Select);
    var s1 := s.(ui := asks);
    Sends(s1);
    var s2 := s1.(requests := [asks.sending.value], ui := asks.(sending := None));
    assert s1.requests + [asks.sending.value] == s2.requests;
    ReachesTwo(s, s1, s2);
    var s3 := ScanBegins(s2);
    ReachesTwo(s, s2, s3);
    assert s3.published == [U.ScanStarted] + s3.published[1..];
    Shows(s3, U.ScanStarted, s3.published[1..]);
    t := s3.(published := s3.published[1..], ui := UiShown(s3.ui, U.ScanStarted));
    ReachesTwo(s, s3, t);
  }

  lemma ScanFinds(s: State, found: seq<Device>) returns (t: State)
    requires s.todo == [Publish(U.ScanStarted), Scan] && s.published == []
    requires |found| <= BLE_MAX_DISCOVERED && DistinctDevices(found)
    ensures Reaches(s, t)
    ensures t == s.(published := [U.ScanStarted], todo := Found(found) + [Publish(U.ScanComplete), Remember(found)])
  {
    var l := ScanEnds(Some(found), {});
    var s1 := s.(todo := [Scan], published := [U.ScanStarted]);
    assert s.todo == [Publish(U.ScanStarted)] + s1.todo && s.published + [U.ScanStarted] == s1.published;
    Publishes(s, U.ScanStarted, s1.todo);
    assert IsScanResult(l.result);
    Then(s, s1, l);
    t := Next(s1, l);
    assert t.todo == Found(found) + [Publish(U.ScanComplete), Remember(found)];
  }

  /** The scan finds eight devices while nobody takes its events. */
  lemma ScanFloods(s: State, found: seq<Device>) returns (t: State)
    requires s.todo == [Publish(U.ScanStarted), Scan] && s.published == []
    requires s.ui.sending.Some? && |s.requests| == UI_REQUESTS
    requires |found| == BLE_MAX_DISCOVERED && DistinctDevices(found)
    ensures Reaches(s, t) && Stuck(t)
  {
    var u := ScanFinds(s, found);
    FoundPublishes(found);
    var ops, rest := Found(found)[..7], Found(found)[7..] + [Publish(U.ScanComplete), Remember(found)];
    assert u.todo == ops + rest;
    UpcomingEach(ops);
    PublishAll(u, ops, Upcoming(ops), rest);
    t := u.(todo := rest, published := u.published + Upcoming(ops));
    ReachesTwo(s, u, t);
    assert rest[0] == Found(found)[7] && Found(found)[7] in Found(found);
  }

  lemma FailuresShown(a: Device, b: Device)
    ensures var s := BothFailed(a, b);
            && s.ui == Initial([]).ui && s.requests == [] && s.todo == [] && s.table == [C.FREE, C.FREE]
            && |s.published| == 6 && s.published[0] == U.ScanStarted
            && forall e | e in s.published[1..] :: IsRetryEvent(e)
  {
    assert BothFailed(a, b).published
        == [U.ScanStarted, U.Failed(C.ScanFailed), U.Failed(C.ConnectFailed), U.AllDown, U.Failed(C.ConnectFailed), U.AllDown];
  }

  /**
   The deadlock is real: with any two stored peers and any eight advertising devices there is
   a run that ends in it. The boot scan and both links fail, the user asks for a scan and
   then answers each of the five failures on the screen with another request.
   */
  lemma DeadlockIsReachable(a: Device, b: Device, found: seq<Device>)
    requires |found| == BLE_MAX_DISCOVERED && DistinctDevices(found)
    ensures exists run, labels :: IsRun([a, b], run, labels) && Stuck(run[|labels|])
  {
    var start, s := Initial([a, b]), BothFailed(a, b);
    BothFail(a, b);
    FailuresShown(a, b);
    var t := UserScans(s);
    ReachesTwo(start, s, t);
    var u := UserKeepsRetrying(t);
    ReachesTwo(start, t, u);
    var v := ScanFloods(u, found);
    ReachesTwo(start, u, v);
    ReachedByRun([a, b], v);
  }
}
