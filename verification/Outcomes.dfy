/** What becomes of a connection attempt that failed, and of a command that superseded a link. */
module Outcomes {
  import opened Types
  import opened Scanner
  import opened Reconnect
  import opened Protocol
  import opened SlotInvariant
  import opened SlotRuns
  import opened SlotTheorems
  import opened Traces
  import opened UiRuns
  import C = Coordinator
  import U = Ui

  /** The failure of slot `i` is still with its worker, or its event is queued. */
  predicate IsReporting(s: State, i: nat, tag: C.ErrorTag) {
    || (i < |s.workers| && s.workers[i].phase.Ending? && s.workers[i].phase.outcome == Failed(tag))
    || Error(i, tag) in s.events
  }

  /** The coordinator takes up the failure: it frees the slot and first tells the UI this very tag. */
  predicate TakesFailure(s: State, s': State, i: nat, tag: C.ErrorTag) {
    && i < MAX_CONNECTIONS && s.events != [] && s.events[0] == Error(i, tag)
    && !C.IsOccupied(s'.table[i])
    && Upcoming(s'.todo) != [] && Upcoming(s'.todo)[0] == U.Failed(tag)
  }

  /** The event of a failure names it. */
  lemma ReportNames(s: State, l: Label, i: nat, tag: C.ErrorTag)
    requires IsSized(s) && IsWorkerLabel(l) && Enabled(s, l) && IsReporting(s, i, tag)
    ensures IsReporting(NextWorker(s, l), i, tag)
  {
    var s' := NextWorker(s, l);
    assert s.events <= s'.events;
    if l == Report(i) && s.workers[i].phase.outcome == Failed(tag) {
      assert s'.events[|s.events|] == Error(i, tag);
    }
  }

  lemma EventTakesFailure(s: State, i: nat, tag: C.ErrorTag)
    requires WithinBounds(s) && Enabled(s, TakeEvent) && IsReporting(s, i, tag)
    ensures IsReporting(OnEvent(s), i, tag) || TakesFailure(s, OnEvent(s), i, tag)
  {
    assert s.events == [s.events[0]] + s.events[1..];
    if s.events[0] == Error(i, tag) {
      EventWork(s.table, s.events[0], s.epochs);
    }
  }

  lemma ReportingStep(s: State, l: Label, i: nat, tag: C.ErrorTag)
    requires Invariant(s) && Enabled(s, l) && IsReporting(s, i, tag)
    ensures IsReporting(Next(s, l), i, tag) || (l == TakeEvent && TakesFailure(s, Next(s, l), i, tag))
  {
    if IsWorkerLabel(l) {
      ReportNames(s, l, i, tag);
    } else if l.TakeEvent? {
      EventTakesFailure(s, i, tag);
    }
  }

  /** Between `m` and `n` the coordinator took up the failure, at `k`. */
  predicate ToldAt(run: seq<State>, labels: seq<Label>, m: nat, k: nat, n: nat, i: nat, tag: C.ErrorTag) {
    m < k < n && k + 1 < |run| && k < |labels| && labels[k] == TakeEvent && TakesFailure(run[k], run[k + 1], i, tag)
  }

  lemma FailureBegins(s: State, i: nat, tag: C.ErrorTag)
    requires Enabled(s, LinkFailed(i, tag))
    ensures IsReporting(Next(s, LinkFailed(i, tag)), i, tag)
  {}

  lemma FailureMovesOn(run: seq<State>, labels: seq<Label>, m: nat, k: nat, n: nat, i: nat, tag: C.ErrorTag) returns (k': nat)
    requires m < n < |labels| && n + 1 < |run|
    requires Invariant(run[n]) && Enabled(run[n], labels[n]) && run[n + 1] == Next(run[n], labels[n])
    requires IsReporting(run[n], i, tag) || ToldAt(run, labels, m, k, n, i, tag)
    ensures IsReporting(run[n + 1], i, tag) || ToldAt(run, labels, m, k', n + 1, i, tag)
  {
    k' := k;
    if IsReporting(run[n], i, tag) {
      ReportingStep(run[n], labels[n], i, tag);
      k' := n;
    }
  }

  lemma {:induction false} FailureTravels(
      peers: seq<Device>, run: seq<State>, labels: seq<Label>, m: nat, n: nat, i: nat, tag: C.ErrorTag) returns (k: nat)
    requires IsRun(peers, run, labels) && m < n < |run| && labels[m] == LinkFailed(i, tag)
    ensures IsReporting(run[n], i, tag) || ToldAt(run, labels, m, k, n, i, tag)
    decreases n
  {
    if m + 1 == n {
      FailureBegins(run[m], i, tag);
      k := m;
    } else {
      k := FailureTravels(peers, run, labels, m, n - 1, i, tag);
      RunKeepsInvariant(peers, run, labels, n - 1);
      k := FailureMovesOn(run, labels, m, k, n - 1, i, tag);
    }
  }

  /**
   A connection attempt that failed is reported as what it was: once its slot is settled again,
   the coordinator has freed the slot and had the UI told the tag of this very failure.
   */
  lemma FailureIsTold(
      peers: seq<Device>, run: seq<State>, labels: seq<Label>, m: nat, n: nat, i: nat, tag: C.ErrorTag)
    requires IsRun(peers, run, labels) && m < n < |run| && labels[m] == LinkFailed(i, tag) && i < MAX_CONNECTIONS
    ensures IsSized(run[n])
    ensures IsSettled(run[n], i) ==> exists k :: ToldAt(run, labels, m, k, n, i, tag)
  {
    RunKeepsInvariant(peers, run, labels, n);
    var k := FailureTravels(peers, run, labels, m, n, i, tag);
    if IsSettled(run[n], i) {
      NoEventOf(run[n].events, Error(i, tag));
    }
  }

  lemma {:induction false} NoEventOf(events: seq<SlotEvent>, e: SlotEvent)
    requires EventsOf(events, e.slot) == []
    ensures e !in events
  {
    if events != [] {
      NoEventOf(events[1..], e);
      assert events == [events[0]] + events[1..];
    }
  }

  /** A Connect that superseded a link is what the worker does next, before it reads its queue. */
  lemma SupersedingConnectIsNext(s: State, i: nat, d: Device, epoch: nat)
    requires IsSized(s) && i < MAX_CONNECTIONS && |s.events| < SLOT_EVENTS
    requires s.workers[i].phase.Ending? && s.workers[i].phase.outcome == Superseded(Connect(d, epoch))
    ensures var reached := After(Step, s, [Report(i), TakeCommand(i)]);
            && reached.Some? && reached.value.commands == s.commands
            && reached.value.events == s.events + [Disconnected(i)]
            && |reached.value.workers| > i && reached.value.workers[i] == Worker(Establishing(d, epoch), None)
  {
    TakeTwo(s, Report(i), TakeCommand(i));
  }
}
