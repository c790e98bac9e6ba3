/**
 The coordinator hangs on a worker that is establishing a link: two peers that are switched off
 and three requests for a scan are enough. It goes on only when the attempt ends.
 */
module Hang {
  import opened Types
  import opened Scanner
  import opened Reconnect
  import opened Protocol
  import opened SlotRuns
  import opened SlotTheorems
  import opened Traces
  import opened Moves
  import opened UiRuns
  import opened Deadlock
  import C = Coordinator
  import U = Ui

  /** The coordinator waits on slot `i`, whose worker is establishing a link. */
  predicate Hangs(s: State, i: nat) {
    IsSized(s) && i < MAX_CONNECTIONS && AwaitsWorker(s, i) && s.workers[i].phase.Establishing?
  }

  predicate StillHangs(s: State, t: State, i: nat) {
    Hangs(t, i) && t.todo == s.todo && t.table == s.table
  }

  lemma HangStep(s: State, l: Label, i: nat)
    requires Hangs(s, i) && Enabled(s, l) && !IsOutcome(l, i)
    ensures StillHangs(s, Next(s, l), i)
  {
    if IsWorkerLabel(l) {
      WorkerLeavesUi(s, l);
      assert l.i != i;
    } else {
      assert IsUiLabel(l);
    }
  }

  /** Whatever else happens, the coordinator takes no step until the attempt ends. */
  lemma HangsUntilOutcome(s: State, labels: seq<Label>, i: nat)
    requires Hangs(s, i) && After(Step, s, labels).Some?
    requires forall l | l in labels :: !IsOutcome(l, i)
    ensures StillHangs(s, After(Step, s, labels).value, i)
  {
    forall t, l | StillHangs(s, t, i) && !IsOutcome(l, i) && Step(t, l).Some?
      ensures StillHangs(s, Step(t, l).value, i)
    {
      HangStep(t, l, i);
    }
    AfterKeeps(Step, t => StillHangs(s, t, i), l => !IsOutcome(l, i), s, labels);
  }

  // ─── A run into it ─────────────────────────────────────────────────────────

  lemma Commands(s: State, i: nat, e: nat, rest: seq<Op>)
    requires s.todo == [Do(C.DisconnectSlot(i), e)] + rest && i < |s.commands| && |s.commands[i]| < SLOT_COMMANDS
    ensures Reaches(s, s.(todo := rest, commands := s.commands[i := s.commands[i] + [Disconnect(e)]]))
  {
    assert s.todo[1..] == rest;
    ReachesStep(s, ExecuteNext);
  }

  /** Both slots are taken, nothing is under way, and the user can ask for a scan. */
  ghost predicate IsCalm(s: State) {
    && IsSized(s) && s.todo == [] && s.requests == [] && s.published == []
    && C.IsOccupied(s.table[0]) && C.IsOccupied(s.table[1])
    && s.ui.sending.None? && (s.ui.view.screen.Home? || s.ui.view.screen.Error?)
  }

  function Disconnects(s: State): seq<Op>
    requires IsSized(s)
  {
    [Do(C.DisconnectSlot(0), s.epochs[0]), Do(C.DisconnectSlot(1), s.epochs[1])]
  }

  lemma PlansBoth(t: C.Table, epochs: seq<nat>)
    requires C.IsOccupied(t[0]) && C.IsOccupied(t[1]) && |epochs| == 2
    ensures Stamped(C.PlanStartScan(t), epochs) == [Do(C.DisconnectSlot(0), epochs[0]), Do(C.DisconnectSlot(1), epochs[1])]
  {
    var first, second := C.DisconnectSlot(0), C.DisconnectSlot(1);
    assert C.DisconnectFrom(t, 2) == [] && C.DisconnectFrom(t, 1) == [second] + [];
    assert C.PlanStartScan(t) == [first] + [second];
    StampedCons(first, [second], epochs);
    StampedOne(second, epochs);
  }

  /** The user presses Select and the coordinator takes the StartScan up. */
  lemma ScanAsked(s: State) returns (t: State)
    requires IsCalm(s)
    ensures Reaches(s, t) && t.ui.sending.None?
    ensures t == s.(ui := t.ui, scans := s.scans + 1, todo := Disconnects(s) + [Publish(U.ScanStarted), Scan])
  {
    Presses(s, U.Select);
    var s1 := s.(ui := UiPressed(s.ui, U.Select));
    Sends(s1);
    var q := s1.ui.sending.value;
    var s2 := s1.(requests := [q], ui := s1.ui.(sending := None));
    assert s1.requests + [q] == [q];
    ReachesTwo(s, s1, s2);
    PlansBoth(s2.table, s2.epochs);
    Then(s, s2, TakeRequest);
    t := Next(s2, TakeRequest);
    assert t.requests == [] && t.todo == Disconnects(s) + [Publish(U.ScanStarted), Scan];
  }

  /** Both Disconnects are queued behind what the workers have not read. */
  function Queued(s: State): seq<seq<SlotCommand>>
    requires IsSized(s)
  {
    [s.commands[0] + [Disconnect(s.epochs[0])], s.commands[1] + [Disconnect(s.epochs[1])]]
  }

  lemma DisconnectsQueued(s: State, rest: seq<Op>)
    requires IsSized(s) && s.todo == Disconnects(s) + rest
    requires |s.commands[0]| < SLOT_COMMANDS && |s.commands[1]| < SLOT_COMMANDS
    ensures Reaches(s, s.(todo := rest, commands := Queued(s)))
  {
    var second := [Do(C.DisconnectSlot(1), s.epochs[1])] + rest;
    assert s.todo == [Do(C.DisconnectSlot(0), s.epochs[0])] + second;
    Commands(s, 0, s.epochs[0], second);
    var t := s.(todo := second, commands := s.commands[0 := s.commands[0] + [Disconnect(s.epochs[0])]]);
    Commands(t, 1, s.epochs[1], rest);
    assert t.commands[1 := t.commands[1] + [Disconnect(s.epochs[1])]] == Queued(s);
    ReachesTwo(s, t, s.(todo := rest, commands := Queued(s)));
  }

  /** The scan itself fails. */
  lemma RadioFails(s: State)
    requires s.todo == [Publish(U.ScanStarted), Scan] && s.published == []
    ensures Reaches(s, s.(todo := [], lastScan := [], published := [U.ScanStarted, U.Failed(C.ScanFailed)]))
  {
    var scan, last, fail := [Scan], [Remember([])], U.Failed(C.ScanFailed);
    assert s.todo == [Publish(U.ScanStarted)] + scan && s.published + [U.ScanStarted] == [U.ScanStarted];
    Publishes(s, U.ScanStarted, scan);
    var s1 := s.(todo := scan, published := [U.ScanStarted]);
    assert IsScanResult(None);
    var s2 := s1.(todo := [Publish(fail)] + last);
    assert AfterScan(Scan, None, {}) + scan[1..] == [Publish(fail)] + last;
    Then(s, s1, ScanEnds(None, {}));
    Publishes(s2, fail, last);
    var s3 := s2.(todo := last, published := [U.ScanStarted, fail]);
    assert [U.ScanStarted] + [fail] == s3.published;
    ReachesTwo(s, s2, s3);
    assert last[1..] == [];
    Then(s, s3, ExecuteNext);
  }

  /** The user is shown the failed scan. */
  lemma FailureShown(s: State) returns (t: State)
    requires s.published == [U.ScanStarted, U.Failed(C.ScanFailed)] && s.ui.sending.None?
    ensures Reaches(s, t) && t == s.(published := [], ui := t.ui)
    ensures t.ui.sending.None? && t.ui.view.screen.Error?
  {
    var fail := [U.Failed(C.ScanFailed)];
    assert s.published == [U.ScanStarted] + fail && fail == [fail[0]] + [];
    Shows(s, U.ScanStarted, fail);
    var u := s.(published := fail, ui := UiShown(s.ui, U.ScanStarted));
    Shows(u, fail[0], []);
    t := u.(published := [], ui := UiShown(u.ui, fail[0]));
    ReachesTwo(s, u, t);
  }

  /** One round: a scan is asked for, both links are to be dropped, the scan fails and is shown. */
  lemma Round(s: State) returns (t: State)
    requires IsCalm(s) && |s.commands[0]| < SLOT_COMMANDS && |s.commands[1]| < SLOT_COMMANDS
    ensures Reaches(s, t) && IsCalm(t)
    ensures t == s.(commands := Queued(s), ui := t.ui, scans := t.scans, lastScan := [])
  {
    var rest := [Publish(U.ScanStarted), Scan];
    var s1 := ScanAsked(s);
    DisconnectsQueued(s1, rest);
    var s2 := s1.(todo := rest, commands := Queued(s1));
    ReachesTwo(s, s1, s2);
    RadioFails(s2);
    var s3 := s2.(todo := [], lastScan := [], published := [U.ScanStarted, U.Failed(C.ScanFailed)]);
    ReachesTwo(s, s2, s3);
    t := FailureShown(s3);
    ReachesTwo(s, s3, t);
  }

  /** Boot is over, its failed scan was shown, and both workers try to reach peers that are off. */
  lemma BootedAndTrying(a: Device, b: Device) returns (t: State)
    ensures Reaches(Initial([a, b]), t) && IsCalm(t) && t.commands == [[], []]
    ensures t.workers == [Worker(Establishing(a, 1), None), Worker(Establishing(b, 1), None)]
  {
    var s := Booted(a, b);
    Boots(a, b);
    var s1 := s.(commands := [[], [Connect(b, 1)]], workers := [Worker(Establishing(a, 1), None), IDLE]);
    assert [Connect(a, 1)][1..] == [] && [Connect(b, 1)][1..] == [];
    assert Next(s, TakeCommand(0)) == s1;
    Then(Initial([a, b]), s, TakeCommand(0));
    var s2 := s1.(commands := [[], []], workers := [Worker(Establishing(a, 1), None), Worker(Establishing(b, 1), None)]);
    assert Next(s1, TakeCommand(1)) == s2;
    Then(Initial([a, b]), s1, TakeCommand(1));
    t := FailureShown(s2);
    ReachesTwo(Initial([a, b]), s2, t);
  }

  /**
   The hang is real: with any two stored peers that do not answer, three requests for a scan,
   each made after the previous failure was shown, leave the coordinator waiting on slot 0.
   */
  lemma HangIsReachable(a: Device, b: Device)
    ensures exists run, labels :: IsRun([a, b], run, labels) && Hangs(run[|labels|], 0)
  {
    var start := Initial([a, b]);
    var s := BootedAndTrying(a, b);
    var t := Round(s);
    ReachesTwo(start, s, t);
    var u := Round(t);
    ReachesTwo(start, t, u);
    var v := ScanAsked(u);
    ReachesTwo(start, u, v);
    assert v.todo[0] == Do(C.DisconnectSlot(0), u.epochs[0]);
    ReachedByRun([a, b], v);
  }
}
