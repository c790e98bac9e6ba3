/** What the slot invariant means for runs: one life per occupancy, no stale teardown, no wait cycle. */
module SlotTheorems {
  import opened Types
  import opened Scanner
  import opened Reconnect
  import opened Protocol
  import opened SlotInvariant
  import opened SlotRuns
  import opened Traces
  import C = Coordinator

  predicate IsSized(s: State) {
    |s.epochs| == |s.commands| == |s.workers| == MAX_CONNECTIONS
  }

  // ─── Occupancy tokens ──────────────────────────────────────────────────────

  function Connects(cs: seq<SlotCommand>): nat {
    if cs == [] then 0 else C.Count(cs[0].Connect?) + Connects(cs[1..])
  }

  function Terminals(events: seq<SlotEvent>): nat {
    if events == [] then 0 else C.Count(!events[0].Connected?) + Terminals(events[1..])
  }

  /**
   Everything that is, or will start, or has just ended a life of the slot's link: Connects
   planned or queued or put off by the worker, a worker that is not idle, last events not
   yet processed.
   */
  function Tokens(s: State, i: nat): nat
    requires IsSized(s) && i < MAX_CONNECTIONS
  {
    var w := s.workers[i];
    Connects(Planned(s.todo, i)) + Connects(s.commands[i])
    + C.Count(w.pending.Some? && w.pending.value.Connect?) + C.Count(!w.phase.Idle?)
    + Terminals(EventsOf(s.events, i))
  }

  lemma {:induction false} ConnectsConcat(a: seq<SlotCommand>, b: seq<SlotCommand>)
    ensures Connects(a + b) == Connects(a) + Connects(b)
  {
    if a == [] {
      assert a + b == b;
    } else {
      assert (a + b)[0] == a[0] && (a + b)[1..] == a[1..] + b;
      ConnectsConcat(a[1..], b);
    }
  }

  lemma {:induction false} DisconnectsOnly(cs: seq<SlotCommand>, epoch: int)
    requires AllDisconnect(cs, epoch)
    ensures Connects(cs) == 0
  {
    if cs != [] {
      assert cs[0] in cs;
      DisconnectsOnly(cs[1..], epoch);
    }
  }

  lemma {:induction false} OneConnect(p: seq<SlotCommand>, epoch: nat, slot: C.Slot)
    requires ConnectQueued(p, epoch, slot)
    ensures Connects(p) == 1
  {
    if p[0].Connect? {
      DisconnectsOnly(p[1..], epoch);
    } else {
      OneConnect(p[1..], epoch, slot);
    }
  }

  lemma PipelineConnects(i: nat, v: SlotView)
    requires LocalInvariant(i, v)
    ensures Connects(v.planned) + Connects(v.queue)
            == C.Count(v.worker.phase.Idle? && ConnectQueued(Pipeline(v), v.epoch, v.slot))
  {
    ConnectsConcat(v.queue, v.planned);
    if v.worker.phase.Idle? && ConnectQueued(Pipeline(v), v.epoch, v.slot) {
      OneConnect(Pipeline(v), v.epoch, v.slot);
    } else {
      DisconnectsOnly(Pipeline(v), v.epoch);
    }
  }

  lemma TerminalsOf(i: nat, v: SlotView)
    requires LocalInvariant(i, v)
    ensures |v.events| <= 2
    ensures Terminals(v.events) == C.Count(v.worker.phase.Idle? && v.events != [])
    ensures v.worker.phase.Idle? && v.events != [] ==> C.IsOccupied(v.slot)
  {
    if v.worker.phase.Idle? && v.events != [] {
      var d :| ReportedFor(i, v.slot, v.events, d);
      if |v.events| == 2 {
        var last := v.events[1..];
        assert v.events[0].Connected? && last == [Disconnected(i)] && last[1..] == [];
        assert Terminals(last) == 1;
      } else {
        assert v.events[1..] == [];
      }
    } else if v.events != [] {
      assert v.events[1..] == [];
    }
  }

  lemma LocalToken(i: nat, s: State)
    requires IsSized(s) && i < MAX_CONNECTIONS && LocalInvariant(i, ViewOf(s, i))
    ensures Tokens(s, i) == C.Count(C.IsOccupied(s.table[i]))
  {
    var v := ViewOf(s, i);
    PipelineConnects(i, v);
    TerminalsOf(i, v);
    if v.worker.phase.Idle? && !ConnectQueued(Pipeline(v), v.epoch, v.slot) && v.events == [] {
      assert Unused(v) || Reported(i, v.slot, v.events);
      assert v.slot == C.FREE;
    }
  }

  /** A slot is occupied exactly when one token of it exists; there are never two. */
  lemma OneTokenPerOccupancy(peers: seq<Device>, run: seq<State>, labels: seq<Label>, n: nat, i: nat)
    requires IsRun(peers, run, labels) && n < |run| && i < MAX_CONNECTIONS
    ensures IsSized(run[n])
    ensures Tokens(run[n], i) <= 1
    ensures C.IsOccupied(run[n].table[i]) <==> Tokens(run[n], i) == 1
  {
    RunKeepsInvariant(peers, run, labels, n);
    LocalToken(i, run[n]);
  }

  /** Nothing about the slot is under way between the tasks. */
  predicate IsSettled(s: State, i: nat)
    requires IsSized(s) && i < MAX_CONNECTIONS
  {
    && Planned(s.todo, i) == [] && s.commands[i] == [] && EventsOf(s.events, i) == []
    && !s.workers[i].phase.Announcing? && !s.workers[i].phase.Ending?
  }

  /** The table's view of a settled slot is exactly what its worker does, device included. */
  lemma SettledSlotAgrees(peers: seq<Device>, run: seq<State>, labels: seq<Label>, n: nat, i: nat)
    requires IsRun(peers, run, labels) && n < |run| && i < MAX_CONNECTIONS
    ensures IsSized(run[n])
    ensures IsSettled(run[n], i) ==>
              run[n].table[i] == match run[n].workers[i].phase
                                 case Establishing(d, _) => C.Connecting(d)
                                 case Running(d, _) => C.Connected(d)
                                 case _ => C.FREE
  {
    RunKeepsInvariant(peers, run, labels, n);
    assert LocalInvariant(i, ViewOf(run[n], i));
  }

  // ─── Occupancies and the commands issued for them ──────────────────────────

  /** An occupancy begins only when a free slot is reserved, and then the count goes up by one. */
  lemma EpochsCountOccupancies(peers: seq<Device>, run: seq<State>, labels: seq<Label>, n: nat, i: nat)
    requires IsRun(peers, run, labels) && n < |labels| && i < MAX_CONNECTIONS
    ensures IsSized(run[n]) && IsSized(run[n + 1])
    ensures var s, s' := run[n], run[n + 1];
            || s'.epochs[i] == s.epochs[i]
            || (s'.epochs[i] == s.epochs[i] + 1 && !C.IsOccupied(s.table[i]) && s'.table[i].connecting)
    ensures !C.IsOccupied(run[n].table[i]) && C.IsOccupied(run[n + 1].table[i])
            ==> run[n + 1].epochs[i] == run[n].epochs[i] + 1
  {
    RunKeepsInvariant(peers, run, labels, n);
    RunKeepsInvariant(peers, run, labels, n + 1);
    var v := ViewOf(run[n], i);
    assert LocalInvariant(i, v);
    var step := ProjectsToLocalStep(run[n], labels[n], i);
    LocalEpoch(i, v, step);
  }

  lemma LocalEpoch(i: nat, v: SlotView, step: LocalStep)
    requires LocalInvariant(i, v) && LocalEnabled(v, step)
    ensures var v' := ApplyLocal(i, v, step);
            && (v'.epoch == v.epoch
                || (v'.epoch == v.epoch + 1 && !C.IsOccupied(v.slot) && v'.slot.connecting))
            && (!C.IsOccupied(v.slot) && C.IsOccupied(v'.slot) ==> v'.epoch == v.epoch + 1)
  {
    if step.Handle? {
      TerminalsOf(i, v);
    }
  }

  /**
   A command that takes down a live link is a Disconnect issued for that very occupancy of the
   slot: a late one never hits a later link, and the worker never puts off a Connect.
   */
  lemma OnlyOwnDisconnectInterrupts(peers: seq<Device>, run: seq<State>, labels: seq<Label>, n: nat, i: nat)
    requires IsRun(peers, run, labels) && n < |run| && i < MAX_CONNECTIONS
    ensures IsSized(run[n]) && run[n].workers[i].pending.None?
    ensures var s := run[n];
            s.workers[i].phase.Running? ==>
              && s.workers[i].phase.epoch == s.epochs[i]
              && forall c | c in s.commands[i] + Planned(s.todo, i) :: c == Disconnect(s.epochs[i])
    ensures n < |labels| && labels[n] == Interrupt(i) ==>
              && run[n].commands[i][0] == Disconnect(run[n].workers[i].phase.epoch)
              && IsSized(run[n + 1]) && run[n + 1].workers[i].phase.Ending?
              && run[n + 1].workers[i].phase.outcome == Superseded(Disconnect(run[n].workers[i].phase.epoch))
  {
    RunKeepsInvariant(peers, run, labels, n);
    var v := ViewOf(run[n], i);
    assert LocalInvariant(i, v);
    assert Pipeline(v) == run[n].commands[i] + Planned(run[n].todo, i);
    if n < |labels| && labels[n] == Interrupt(i) {
      RunningReceives(i, v);
    }
  }

  // ─── Full channels ─────────────────────────────────────────────────────────

  lemma {:induction false} EventsSplit(events: seq<SlotEvent>)
    requires forall e | e in events :: e.slot < MAX_CONNECTIONS
    ensures |events| == |EventsOf(events, 0)| + |EventsOf(events, 1)|
  {
    if events != [] {
      assert events[0] in events;
      EventsSplit(events[1..]);
    }
  }

  lemma EventsBounded(s: State)
    requires Invariant(s)
    ensures |s.events| <= 2 * MAX_CONNECTIONS
  {
    EventsSplit(s.events);
    TerminalsOf(0, ViewOf(s, 0));
    TerminalsOf(1, ViewOf(s, 1));
  }

  /** At most two events per slot are queued, so a worker never waits to send one. */
  lemma WorkersNeverWaitToReport(peers: seq<Device>, run: seq<State>, labels: seq<Label>, n: nat, i: nat)
    requires IsRun(peers, run, labels) && n < |run| && i < MAX_CONNECTIONS
    ensures IsSized(run[n])
    ensures |EventsOf(run[n].events, i)| <= 2 && |run[n].events| <= 4 < SLOT_EVENTS
    ensures run[n].workers[i].phase.Announcing? ==> Enabled(run[n], Announce(i))
    ensures run[n].workers[i].phase.Ending? ==> Enabled(run[n], Report(i))
  {
    RunKeepsInvariant(peers, run, labels, n);
    EventsBounded(run[n]);
    TerminalsOf(i, ViewOf(run[n], i));
  }

  /** The steps with which a worker that is not establishing a link reads its next command. */
  function ReadNext(i: nat, phase: Phase): seq<Label> {
    match phase
    case Idle => [TakeCommand(i)]
    case Announcing(_, _) => [Announce(i), Interrupt(i)]
    case Running(_, _) => [Interrupt(i)]
    case Ending(_, _, _) => [Report(i), TakeCommand(i)]
    case Establishing(_, _) => []
  }

  lemma WorkerReads(s: State, i: nat)
    requires IsSized(s) && i < MAX_CONNECTIONS && |s.events| < SLOT_EVENTS
    requires !s.workers[i].phase.Establishing? && s.workers[i].pending.None? && s.commands[i] != []
    requires s.workers[i].phase.Ending? && s.workers[i].phase.outcome.Superseded? ==>
               s.workers[i].phase.outcome.next.Disconnect?
    ensures var reached := After(Step, s, ReadNext(i, s.workers[i].phase));
            && reached.Some?
            && var s' := reached.value;
               && s'.commands == s.commands[i := s.commands[i][1..]]
               && s'.todo == s.todo && s'.table == s.table && s'.published == s.published && s'.ui == s.ui
  {
    match s.workers[i].phase {
      case Idle => TakeOne(s, TakeCommand(i));
      case Announcing(_, _) => TakeTwo(s, Announce(i), Interrupt(i));
      case Running(_, _) => TakeOne(s, Interrupt(i));
      case Ending(_, _, _) => TakeTwo(s, Report(i), TakeCommand(i));
    }
  }

  /** The coordinator waits for room in the command queue of slot `i`. */
  predicate AwaitsWorker(s: State, i: nat) {
    s.todo != [] && CommandTo(s.todo[0], i).Some? && !CanExecute(s, s.todo[0])
  }

  /** The labels can be taken from `s`, and then the coordinator can go on with its work. */
  ghost predicate Frees(s: State, labels: seq<Label>)
    requires s.todo != []
  {
    var reached := After(Step, s, labels);
    reached.Some? && reached.value.todo == s.todo && CanExecute(reached.value, s.todo[0])
  }

  ghost predicate OwnSteps(labels: seq<Label>, i: nat) {
    forall l | l in labels :: IsWorkerLabel(l) && l.i == i
  }

  predicate IsOutcome(l: Label, i: nat) {
    (l.LinkMade? || l.LinkFailed?) && l.i == i
  }

  lemma DrainsByReading(s: State, i: nat)
    requires Invariant(s) && i < MAX_CONNECTIONS && AwaitsWorker(s, i) && !s.workers[i].phase.Establishing?
    ensures var steps := ReadNext(i, s.workers[i].phase); |steps| <= 2 && OwnSteps(steps, i) && Frees(s, steps)
  {
    EventsBounded(s);
    assert LocalInvariant(i, ViewOf(s, i));
    WorkerReads(s, i);
  }

  /** However the attempt of an establishing worker ends, two more of its steps make room. */
  lemma DrainsAfterOutcome(s: State, i: nat, l: Label)
    requires Invariant(s) && i < MAX_CONNECTIONS && AwaitsWorker(s, i)
    requires s.workers[i].phase.Establishing? && IsOutcome(l, i)
    ensures Enabled(s, l) && IsSized(Next(s, l))
    ensures var steps := ReadNext(i, Next(s, l).workers[i].phase);
            |steps| == 2 && OwnSteps([l] + steps, i) && Frees(s, [l] + steps)
  {
    var s' := Next(s, l);
    StepKeepsInvariant(s, l);
    assert s'.todo == s.todo && s'.commands == s.commands;
    DrainsByReading(s', i);
    TakeOne(s, l);
    AfterConcat(Step, s, [l], ReadNext(i, s'.workers[i].phase));
  }

  /** What an establishing worker, or one that has just finished, does first leaves its queue full. */
  lemma OwnStepKeepsQueue(s: State, l: Label, i: nat, t: State)
    requires IsSized(s) && i < MAX_CONNECTIONS && IsWorkerLabel(l) && l.i == i && Step(s, l) == Some(t)
    requires s.workers[i].phase.Establishing? || s.workers[i].phase.Announcing? || s.workers[i].phase.Ending?
    ensures t.commands == s.commands && IsSized(t)
    ensures s.workers[i].phase.Establishing? ==> t.workers[i].phase.Announcing? || t.workers[i].phase.Ending?
  {}

  lemma TwoStepsKeepQueue(s: State, labels: seq<Label>, i: nat)
    requires IsSized(s) && i < MAX_CONNECTIONS && s.workers[i].phase.Establishing?
    requires |labels| <= 2 && OwnSteps(labels, i) && After(Step, s, labels).Some?
    ensures After(Step, s, labels).value.commands == s.commands
  {
    AfterShort(Step, s, labels);
    if labels != [] {
      assert forall k | 0 <= k < |labels| :: labels[k] in labels;
      var t := Step(s, labels[0]).value;
      OwnStepKeepsQueue(s, labels[0], i, t);
      if |labels| == 2 {
        OwnStepKeepsQueue(t, labels[1], i, After(Step, s, labels).value);
      }
    }
  }

  /**
   A coordinator that waits for room in the command queue of a slot is never in a wait cycle
   with that worker: at most two steps of the worker's own make room, or, while it establishes a
   link, the end of the attempt and two more. Two alone suffice exactly if it is not establishing.
   */
  lemma FullCommandQueueDrains(peers: seq<Device>, run: seq<State>, labels: seq<Label>, n: nat, i: nat)
    requires IsRun(peers, run, labels) && n < |run| && i < MAX_CONNECTIONS && AwaitsWorker(run[n], i)
    ensures IsSized(run[n])
    ensures (exists steps :: |steps| <= 2 && OwnSteps(steps, i) && Frees(run[n], steps))
            <==> !run[n].workers[i].phase.Establishing?
    ensures run[n].workers[i].phase.Establishing? ==>
              forall l | IsOutcome(l, i) :: Enabled(run[n], l)
                && exists steps :: |steps| == 2 && OwnSteps([l] + steps, i) && Frees(run[n], [l] + steps)
  {
    var s := run[n];
    RunKeepsInvariant(peers, run, labels, n);
    if s.workers[i].phase.Establishing? {
      forall steps: seq<Label> | |steps| <= 2 && OwnSteps(steps, i) && After(Step, s, steps).Some?
        ensures !Frees(s, steps)
      {
        TwoStepsKeepQueue(s, steps, i);
      }
      forall l | IsOutcome(l, i)
        ensures Enabled(s, l) && exists steps :: |steps| == 2 && OwnSteps([l] + steps, i) && Frees(s, [l] + steps)
      {
        DrainsAfterOutcome(s, i, l);
      }
    } else {
      DrainsByReading(s, i);
    }
  }
}
