/**
 The row the user picks is not always the device the coordinator connects: a StartScan queued
 ahead of the Connect replaces the list in between. A run shows it.
 */
module StaleRow {
  import opened Types
  import opened Scanner
  import opened Reconnect
  import opened Protocol
  import opened Traces
  import opened UiRuns
  import opened Moves
  import C = Coordinator
  import U = Ui

  /** The device that boot reserves when its scan found only `a`. */
  function BootTarget(p: Device, a: Device): Device {
    BootDevices([p], [a], {})[0]
  }

  /** Boot with one peer, after the user asked for a scan and while boot's own scan runs. */
  function BootScanning(p: Device): State {
    var s := Initial([p]);
    s.(todo := [BootScan([p])], published := [U.ScanStarted],
       requests := [Request(U.StartScan, None, 0)], ui := s.ui.(view := U.START.(screen := U.Scanning)))
  }

  lemma UserAsksDuringBoot(p: Device)
    ensures Reaches(Initial([p]), BootScanning(p))
  {
    var s, scan := Initial([p]), [BootScan([p])];
    assert s.todo == [Publish(U.ScanStarted)] + scan && s.published + [U.ScanStarted] == [U.ScanStarted];
    Publishes(s, U.ScanStarted, scan);
    var s1 := s.(todo := scan, published := [U.ScanStarted]);
    Presses(s1, U.Select);
    var s2 := s1.(ui := UiPressed(s1.ui, U.Select));
    ReachesTwo(s, s1, s2);
    Sends(s2);
    assert s2.requests + [s2.ui.sending.value] == [Request(U.StartScan, None, 0)];
    ReachesTwo(s, s2, BootScanning(p));
  }

  lemma OneFound(a: Device)
    ensures ScanReport(Some([a])) == [Publish(U.DeviceFound(a)), Publish(U.ScanComplete)]
    ensures Upcoming(ScanReport(Some([a]))) == [U.DeviceFound(a), U.ScanComplete]
  {
    assert [a][1..] == [] && Found([a]) == [Publish(U.DeviceFound(a))];
    PublishOne(U.DeviceFound(a));
    PublishOne(U.ScanComplete);
    UpcomingConcat([Publish(U.DeviceFound(a))], [Publish(U.ScanComplete)]);
  }

  /** A pending scan that finds one device publishes it and goes on to `rest`. */
  lemma FindsOne(s: State, a: Device, rest: seq<Op>)
    requires |s.todo| == 1 && IsScanOp(s.todo[0]) && |s.published| + 2 <= UI_EVENTS
    requires AfterScan(s.todo[0], Some([a]), {}) == ScanReport(Some([a])) + rest
    ensures Reaches(s, s.(todo := rest, published := s.published + [U.DeviceFound(a), U.ScanComplete]))
  {
    var l := ScanEnds(Some([a]), {});
    assert IsScanResult(l.result);
    ReachesStep(s, l);
    var t := s.(todo := ScanReport(l.result) + rest);
    assert s.todo[1..] == [] && Next(s, l) == t;
    OneFound(a);
    PublishAll(t, ScanReport(l.result), [U.DeviceFound(a), U.ScanComplete], rest);
    ReachesTwo(s, t, s.(todo := rest, published := s.published + [U.DeviceFound(a), U.ScanComplete]));
  }

  /** Boot is done: its scan listed `a`, slot 0 is reserved, the user's StartScan is still queued. */
  function BootDone(p: Device, a: Device): State {
    var d := BootTarget(p, a);
    BootScanning(p).(
      table := [C.Connecting(d), C.FREE], epochs := [1, 0], commands := [[Connect(d, 1)], []],
      todo := [], lastScan := [a], published := [U.ScanStarted, U.DeviceFound(a), U.ScanComplete])
  }

  lemma BootScanFinds(p: Device, a: Device)
    ensures Reaches(BootScanning(p),
                    BootScanning(p).(todo := [BootReserve(0, BootTarget(p, a)), Remember([a])],
                                     published := [U.ScanStarted, U.DeviceFound(a), U.ScanComplete]))
  {
    var d := BootTarget(p, a);
    assert BootDevices([p], [a], {}) == [d];
    assert Reserves([d], 1) == [] && Reserves([d], 0) == [BootReserve(0, d)] + [];
    FindsOne(BootScanning(p), a, [BootReserve(0, d), Remember([a])]);
    assert [U.ScanStarted] + [U.DeviceFound(a), U.ScanComplete] == [U.ScanStarted, U.DeviceFound(a), U.ScanComplete];
  }

  lemma BootEnds(p: Device, a: Device)
    ensures Reaches(BootScanning(p), BootDone(p, a))
  {
    var s, d, last := BootScanning(p), BootTarget(p, a), [Remember([a])];
    BootScanFinds(p, a);
    var t := s.(todo := [BootReserve(0, d), Remember([a])], published := [U.ScanStarted, U.DeviceFound(a), U.ScanComplete]);
    assert t.todo == [BootReserve(0, d)] + last;
    BootReserves(t, 0, d, last);
    assert t.(table := t.table[0 := C.Connecting(d)], epochs := t.epochs[0 := 1],
              commands := t.commands[0 := [Connect(d, 1)]], todo := last) == BootDone(p, a).(todo := last, lastScan := []);
    var u := BootDone(p, a).(todo := last, lastScan := []);
    ReachesTwo(s, t, u);
    assert last[1..] == [];
    Then(s, u, ExecuteNext);
  }

  /** The UI shows a scan that listed `a` only. */
  lemma ListShown(s: State, a: Device) returns (t: State)
    requires s.published == [U.ScanStarted, U.DeviceFound(a), U.ScanComplete] && s.ui.sending.None?
    ensures Reaches(s, t) && t == s.(ui := t.ui, published := [])
    ensures t.ui.view.screen == U.DeviceList && t.ui.view.selected == 0
    ensures t.ui.listed == [a] && t.ui.seen == s.ui.seen + 1 && t.ui.sending.None?
  {
    var found, done := U.DeviceFound(a), [U.ScanComplete];
    assert s.published == [U.ScanStarted] + [found, U.ScanComplete] && [found, U.ScanComplete] == [found] + done;
    Shows(s, U.ScanStarted, [found, U.ScanComplete]);
    var s1 := s.(published := [found, U.ScanComplete], ui := UiShown(s.ui, U.ScanStarted));
    Shows(s1, found, done);
    var s2 := s1.(published := done, ui := UiShown(s1.ui, found));
    assert s2.ui.listed == [a];
    ReachesTwo(s, s1, s2);
    assert done == [U.ScanComplete] + [];
    Shows(s2, U.ScanComplete, []);
    t := s2.(published := [], ui := UiShown(s2.ui, U.ScanComplete));
    ReachesTwo(s, s2, t);
  }

  /** Selecting the first row queues a Connect behind what is queued already. */
  lemma PicksFirst(s: State, a: Device) returns (t: State)
    requires s.ui.view.screen == U.DeviceList && s.ui.view.selected == 0
    requires s.ui.listed == [a] && s.ui.sending.None? && |s.requests| < UI_REQUESTS
    ensures Reaches(s, t)
    ensures t == s.(ui := t.ui, requests := s.requests + [Request(U.Connect(0), Some(a), s.ui.seen)])
    ensures t.ui.view.screen.Scanning? && t.ui.sending.None?
  {
    Presses(s, U.Select);
    var u := s.(ui := UiPressed(s.ui, U.Select));
    Sends(u);
    t := u.(requests := u.requests + [u.ui.sending.value], ui := u.ui.(sending := None));
    ReachesTwo(s, u, t);
  }

  /** The user sees the row of `a` and selects it while the StartScan is still queued. */
  lemma UserPicks(p: Device, a: Device) returns (t: State)
    ensures Reaches(BootDone(p, a), t)
    ensures t == BootDone(p, a).(
                   ui := t.ui, published := [],
                   requests := [Request(U.StartScan, None, 0)] + [Request(U.Connect(0), Some(a), 1)])
  {
    var shown := ListShown(BootDone(p, a), a);
    t := PicksFirst(shown, a);
    ReachesTwo(BootDone(p, a), shown, t);
  }

  /** A StartScan that was taken up finds one device. */
  lemma ScanFinds(s: State, d: Device)
    requires s.todo == [Publish(U.ScanStarted), Scan] && s.published == []
    ensures Reaches(s, s.(todo := [], lastScan := [d],
                          published := [U.ScanStarted, U.DeviceFound(d), U.ScanComplete]))
  {
    var scan, last := [Scan], [Remember([d])];
    assert s.todo == [Publish(U.ScanStarted)] + scan && s.published + [U.ScanStarted] == [U.ScanStarted];
    Publishes(s, U.ScanStarted, scan);
    var s1 := s.(todo := scan, published := [U.ScanStarted]);
    FindsOne(s1, d, last);
    var s2 := s1.(todo := last, published := [U.ScanStarted, U.DeviceFound(d), U.ScanComplete]);
    assert s1.published + [U.DeviceFound(d), U.ScanComplete] == s2.published;
    ReachesTwo(s, s1, s2);
    assert last[1..] == [];
    Then(s, s2, ExecuteNext);
  }

  /** The queued StartScan runs first and finds `b`. */
  lemma SecondScan(s: State, b: Device) returns (t: State)
    requires s.todo == [] && s.published == [] && !C.IsOccupied(s.table[1])
    requires |s.requests| == 2 && s.requests[0].command.StartScan?
    ensures Reaches(s, t) && t.todo == [] && t.lastScan == [b] && t.table == s.table
    ensures t.requests == [s.requests[1]]
  {
    var s1 := ScanBegins(s);
    ScanFinds(s1, b);
    t := s1.(todo := [], lastScan := [b], published := [U.ScanStarted, U.DeviceFound(b), U.ScanComplete]);
    ReachesTwo(s, s1, t);
  }

  /** The coordinator is about to take a Connect of row 0, where the user saw `a` and it has `b`. */
  predicate IsStale(s: State, a: Device, b: Device) {
    && s.todo == [] && s.lastScan == [b]
    && |s.requests| == 1 && s.requests[0].command == U.Connect(0) && s.requests[0].picked == Some(a)
  }

  /**
   Whatever `a` and `b` are: a run in which the user picked the row of `a` and the coordinator,
   about to take that request, holds `b` in this row.
   */
  lemma PickCanGoStale(p: Device, a: Device, b: Device)
    ensures exists run, labels :: IsRun([p], run, labels) && IsStale(run[|labels|], a, b)
  {
    var start := Initial([p]);
    UserAsksDuringBoot(p);
    BootEnds(p, a);
    ReachesTwo(start, BootScanning(p), BootDone(p, a));
    var s := UserPicks(p, a);
    ReachesTwo(start, BootDone(p, a), s);
    var t := SecondScan(s, b);
    ReachesTwo(start, s, t);
    ReachedByRun([p], t);
  }
}
