/** Executions from a state, label by label, and the runs they make. */
module Traces {
  import opened Types
  import opened Scanner
  import opened Reconnect
  import opened Protocol

  /** The state after the labels, if each can be taken in turn. */
  ghost function After<S, L>(step: (S, L) -> Option<S>, s: S, labels: seq<L>): Option<S> {
    if labels == [] then Some(s) else
    match step(s, labels[0])
    case Some(t) => After(step, t, labels[1..])
    case None => None
  }

  lemma {:induction false} AfterConcat<S, L>(step: (S, L) -> Option<S>, s: S, a: seq<L>, b: seq<L>)
    requires After(step, s, a).Some?
    ensures After(step, s, a + b) == After(step, After(step, s, a).value, b)
    decreases |a|
  {
    if a == [] {
      assert a + b == b;
    } else {
      assert (a + b)[0] == a[0] && (a + b)[1..] == a[1..] + b;
      AfterConcat(step, step(s, a[0]).value, a[1..], b);
    }
  }

  lemma {:induction false} AfterShort<S, L>(step: (S, L) -> Option<S>, s: S, labels: seq<L>)
    requires |labels| <= 2 && After(step, s, labels).Some?
    ensures labels == [] ==> After(step, s, labels) == Some(s)
    ensures |labels| == 1 ==> After(step, s, labels) == step(s, labels[0])
    ensures |labels| == 2 ==> step(s, labels[0]).Some? && After(step, s, labels) == step(step(s, labels[0]).value, labels[1])
    decreases |labels|
  {
    if |labels| == 2 {
      AfterShort(step, step(s, labels[0]).value, labels[1..]);
    } else if |labels| == 1 {
      assert labels[1..] == [];
    }
  }

  /** The states passed on the way. */
  ghost function Trace<S, L>(step: (S, L) -> Option<S>, s: S, labels: seq<L>): (run: seq<S>)
    requires After(step, s, labels).Some?
    ensures |run| == |labels| + 1 && run[0] == s
    decreases |labels|
  {
    if labels == [] then [s] else [s] + Trace(step, step(s, labels[0]).value, labels[1..])
  }

  lemma {:induction false} TraceSteps<S, L>(step: (S, L) -> Option<S>, s: S, labels: seq<L>, n: nat)
    requires After(step, s, labels).Some? && n < |labels|
    ensures step(Trace(step, s, labels)[n], labels[n]) == Some(Trace(step, s, labels)[n + 1])
    decreases |labels|
  {
    if n > 0 {
      TraceSteps(step, step(s, labels[0]).value, labels[1..], n - 1);
    }
  }

  lemma {:induction false} TraceEnds<S, L>(step: (S, L) -> Option<S>, s: S, labels: seq<L>)
    requires After(step, s, labels).Some?
    ensures Trace(step, s, labels)[|labels|] == After(step, s, labels).value
    decreases |labels|
  {
    if labels != [] {
      TraceEnds(step, step(s, labels[0]).value, labels[1..]);
    }
  }

  /** What every step keeps and state `n` has, every later state has. */
  lemma {:induction false} PathKeeps<S(!new), L(!new)>(
    step: (S, L) -> Option<S>, holds: S -> bool, run: seq<S>, labels: seq<L>, n: nat, m: nat)
    requires |run| == |labels| + 1 && n <= m < |run|
    requires forall k | 0 <= k < |labels| :: step(run[k], labels[k]) == Some(run[k + 1])
    requires holds(run[n])
    requires forall s, l | holds(s) && step(s, l).Some? :: holds(step(s, l).value)
    ensures holds(run[m])
    decreases m
  {
    if n < m {
      PathKeeps(step, holds, run, labels, n, m - 1);
      assert step(run[m - 1], labels[m - 1]) == Some(run[m]);
    }
  }

  /** What every allowed step keeps holds after any number of them. */
  lemma {:induction false} AfterKeeps<S(!new), L(!new)>(
    step: (S, L) -> Option<S>, holds: S -> bool, allowed: L -> bool, s: S, labels: seq<L>)
    requires holds(s) && After(step, s, labels).Some? && forall l | l in labels :: allowed(l)
    requires forall t, l | holds(t) && allowed(l) && step(t, l).Some? :: holds(step(t, l).value)
    ensures holds(After(step, s, labels).value)
    decreases |labels|
  {
    if labels != [] {
      assert allowed(labels[0]);
      AfterKeeps(step, holds, allowed, step(s, labels[0]).value, labels[1..]);
    }
  }

  // ─── Executions of the protocol ────────────────────────────────────────────

  ghost function Step(s: State, l: Label): Option<State> {
    if Enabled(s, l) then Some(Next(s, l)) else None
  }

  ghost predicate Reaches(s: State, t: State) {
    exists labels :: After(Step, s, labels) == Some(t)
  }

  lemma RunIsPath(peers: seq<Device>, run: seq<State>, labels: seq<Label>)
    requires IsRun(peers, run, labels)
    ensures forall k | 0 <= k < |labels| :: Step(run[k], labels[k]) == Some(run[k + 1])
  {}

  lemma TakeOne(s: State, a: Label)
    requires Enabled(s, a)
    ensures After(Step, s, [a]) == Some(Next(s, a))
  {
    assert [a][1..] == [];
  }

  lemma TakeTwo(s: State, a: Label, b: Label)
    requires Enabled(s, a) && Enabled(Next(s, a), b)
    ensures After(Step, s, [a, b]) == Some(Next(Next(s, a), b))
  {
    assert [a, b] == [a] + [b];
    TakeOne(s, a);
    TakeOne(Next(s, a), b);
    AfterConcat(Step, s, [a], [b]);
  }

  lemma ReachesStep(s: State, l: Label)
    requires Enabled(s, l)
    ensures Reaches(s, Next(s, l))
  {
    TakeOne(s, l);
  }

  lemma ReachesSelf(s: State)
    ensures Reaches(s, s)
  {
    assert After(Step, s, []) == Some(s);
  }

  lemma ReachesTwo(s: State, t: State, u: State)
    requires Reaches(s, t) && Reaches(t, u)
    ensures Reaches(s, u)
  {
    var a :| After(Step, s, a) == Some(t);
    var b :| After(Step, t, b) == Some(u);
    AfterConcat(Step, s, a, b);
  }

  /** Extends an execution by one step. */
  lemma Then(s: State, t: State, l: Label)
    requires Reaches(s, t) && Enabled(t, l)
    ensures Reaches(s, Next(t, l))
  {
    ReachesStep(t, l);
    ReachesTwo(s, t, Next(t, l));
  }

  /** What can be reached from boot is the end of a run. */
  lemma ReachedByRun(peers: seq<Device>, t: State)
    requires |peers| <= MAX_CONNECTIONS && Reaches(Initial(peers), t)
    ensures exists run, labels :: IsRun(peers, run, labels) && run[|labels|] == t
  {
    var labels :| After(Step, Initial(peers), labels) == Some(t);
    var run := Trace(Step, Initial(peers), labels);
    forall n: nat | n < |labels|
      ensures Enabled(run[n], labels[n]) && run[n + 1] == Next(run[n], labels[n])
    {
      TraceSteps(Step, Initial(peers), labels, n);
      assert Step(run[n], labels[n]) == Some(run[n + 1]);
    }
    TraceEnds(Step, Initial(peers), labels);
    assert IsRun(peers, run, labels);
  }
}
