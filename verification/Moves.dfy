/** Steps and short stretches of an execution, with their effect on the state. */
module Moves {
  import opened Types
  import opened Scanner
  import opened Reconnect
  import opened Protocol
  import opened SlotTheorems
  import opened Traces
  import opened UiRuns
  import C = Coordinator
  import U = Ui

  lemma Publishes(s: State, e: U.BleEvent, rest: seq<Op>)
    requires s.todo == [Publish(e)] + rest && |s.published| < UI_EVENTS
    ensures Reaches(s, s.(todo := rest, published := s.published + [e]))
  {
    assert s.todo[1..] == rest;
    ReachesStep(s, ExecuteNext);
  }

  lemma Shows(s: State, e: U.BleEvent, rest: seq<U.BleEvent>)
    requires s.published == [e] + rest && s.ui.sending.None?
    ensures Reaches(s, s.(published := rest, ui := UiShown(s.ui, e)))
  {
    assert s.published[1..] == rest;
    ReachesStep(s, ShowEvent);
  }

  lemma Presses(s: State, btn: U.ButtonEvent)
    requires s.ui.sending.None?
    ensures Reaches(s, s.(ui := UiPressed(s.ui, btn)))
  {
    ReachesStep(s, Press(btn));
  }

  lemma Sends(s: State)
    requires s.ui.sending.Some? && |s.requests| < UI_REQUESTS
    ensures Reaches(s, s.(requests := s.requests + [s.ui.sending.value], ui := s.ui.(sending := None)))
  {
    ReachesStep(s, SendRequest);
  }

  /** The operations publish the events one for one. */
  ghost predicate PublishEach(ops: seq<Op>, events: seq<U.BleEvent>) {
    |ops| == |events| && forall k | 0 <= k < |ops| :: ops[k] == Publish(events[k])
  }

  lemma {:induction false} UpcomingEach(ops: seq<Op>)
    requires forall op | op in ops :: op.Publish?
    ensures PublishEach(ops, Upcoming(ops))
  {
    if ops != [] {
      assert ops[0] in ops;
      UpcomingEach(ops[1..]);
      assert Upcoming(ops) == [ops[0].event] + Upcoming(ops[1..]);
    }
  }

  /** Nothing but publishing. */
  lemma {:induction false} PublishAll(s: State, ops: seq<Op>, events: seq<U.BleEvent>, rest: seq<Op>)
    requires s.todo == ops + rest && |s.published| + |ops| <= UI_EVENTS && PublishEach(ops, events)
    ensures Reaches(s, s.(todo := rest, published := s.published + events))
    decreases |ops|
  {
    var goal := s.(todo := rest, published := s.published + events);
    if ops == [] {
      assert s == goal by {
        assert s.todo == rest && s.published + events == s.published;
      }
      ReachesSelf(s);
    } else {
      var t := s.(todo := ops[1..] + rest, published := s.published + [events[0]]);
      assert s.todo == [Publish(events[0])] + t.todo;
      Publishes(s, events[0], t.todo);
      PublishAll(t, ops[1..], events[1..], rest);
      assert t.published + events[1..] == goal.published;
      ReachesTwo(s, t, goal);
    }
  }

  lemma BootReserves(s: State, i: nat, d: Device, rest: seq<Op>)
    requires IsSized(s) && i < MAX_CONNECTIONS && s.commands[i] == [] && s.todo == [BootReserve(i, d)] + rest
    ensures Reaches(s, s.(table := s.table[i := C.Connecting(d)], epochs := s.epochs[i := s.epochs[i] + 1],
                          commands := s.commands[i := [Connect(d, s.epochs[i] + 1)]], todo := rest))
  {
    var s1 := Next(s, ExecuteNext);
    ReachesStep(s, ExecuteNext);
    assert s.todo[1..] == rest && s1.todo[1..] == rest;
    Then(s, s1, ExecuteNext);
    assert s.commands[i] + [Connect(d, s.epochs[i] + 1)] == [Connect(d, s.epochs[i] + 1)];
  }

  /** A StartScan that finds a free slot disturbs no link. */
  lemma ScanBegins(s: State) returns (t: State)
    requires s.todo == [] && s.requests != [] && s.requests[0].command.StartScan? && !C.IsOccupied(s.table[1])
    ensures Reaches(s, t)
    ensures t == s.(todo := [Publish(U.ScanStarted), Scan], scans := s.scans + 1, requests := s.requests[1..])
  {
    ReachesStep(s, TakeRequest);
    t := Next(s, TakeRequest);
    assert Stamped(C.PlanStartScan(s.table), s.epochs) == [];
    assert t.todo == [Publish(U.ScanStarted), Scan];
  }
}
