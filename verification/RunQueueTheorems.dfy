/** What the run queues promise to processes over whole runs. */
module RunQueueTheorems {
  import opened Lists
  import opened RunQueue

  // ---------------------------------------------------------------- order

  /** Who stays queued stays in order. */
  ghost predicate InOrder(s: Sched, t: Sched, a: nat, x: nat, y: nat)
    requires a < |s.queues| && a < |t.queues|
  {
    Before(s.queues[a], x, y) && x in t.queues[a] && y in t.queues[a] ==> Before(t.queues[a], x, y)
  }

  lemma SetOrder(s: Sched, p: nat, f: set<Flag>, a: nat, x: nat, y: nat)
    requires s.Shape() && Filed(s) && p < |s.slots| && a < NR_SCHED_QUEUES
    ensures InOrder(s, RtsSet(s, p, f), a, x, y)
    ensures forall z :: z in RtsSet(s, p, f).queues[a] ==> z in s.queues[a]
  {
    WithoutMembers(s.queues[s.slots[p].priority], p);
    if x != p && y != p { BeforeWithout(s.queues[a], p, x, y); }
  }

  lemma AppendOrder(s: Sched, p: nat, a: nat, x: nat, y: nat)
    requires s.Shape() && p < |s.slots| && a < NR_SCHED_QUEUES
    ensures Before(s.queues[a], x, y) ==> Before(Append(s, p).queues[a], x, y)
    ensures Before(s.queues[a], x, y) ==> Before(EnqueueHead(s, p).queues[a], x, y)
    ensures a == s.slots[p].priority && x in s.queues[a] ==> Before(Append(s, p).queues[a], x, p)
  {
    BeforeAppend(s.queues[a], p, x, y);
    BeforePrepend(s.queues[a], p, x, y);
  }

  lemma EnqueueOrder(s: Sched, p: nat, a: nat, x: nat, y: nat)
    requires s.Shape() && Missing(s, p) && a < NR_SCHED_QUEUES
    ensures InOrder(s, Enqueue(s, p), a, x, y)
    ensures x in s.queues[a] && x in Enqueue(s, p).queues[a] && p in Enqueue(s, p).queues[a]
      ==> Before(Enqueue(s, p).queues[a], x, p)
  {
    AppendFiled(s, p);
    AppendOrder(s, p, a, x, y);
    if Outranks(s, p) {
      SetOrder(Append(s, p), s.cur, {PREEMPTED}, a, x, y);
      SetOrder(Append(s, p), s.cur, {PREEMPTED}, a, x, p);
    }
  }

  lemma UnsetOrder(s: Sched, p: nat, f: set<Flag>, a: nat, x: nat, y: nat)
    requires s.Shape() && Filed(s) && p < |s.slots| && a < NR_SCHED_QUEUES
    ensures InOrder(s, RtsUnset(s, p, f), a, x, y)
    ensures x in s.queues[a] && p !in s.queues[a] && x in RtsUnset(s, p, f).queues[a] && p in RtsUnset(s, p, f).queues[a]
      ==> Before(RtsUnset(s, p, f).queues[a], x, p)
  {
    var t := s.With(p, s.slots[p].(flags := s.slots[p].flags - f));
    if !s.slots[p].Runnable() && t.slots[p].Runnable() { EnqueueOrder(t, p, a, x, y); }
  }

  lemma SchedProcOrder(s: Sched, p: nat, priority: int, quantum: int, cycles: nat, a: nat, x: nat, y: nat)
    requires s.Shape() && Filed(s) && p < |s.slots| && !Misses(priority, quantum) && a < NR_SCHED_QUEUES && x != p
    ensures InOrder(s, SchedProc(s, p, priority, quantum, cycles).0, a, x, y)
  {
    if InRange(priority, quantum) && Before(s.queues[a], x, y) {
      BeforeMembers(s.queues[a], x, y);
      RtsSetFiled(s, p, {NO_QUANTUM});
      var t := if s.slots[p].Runnable() then RtsSet(s, p, {NO_QUANTUM}) else s;
      SetOrder(s, p, {NO_QUANTUM}, a, x, y);
      var u := t.With(p, NewTerms(t.slots[p], priority, quantum, cycles));
      assert u.queues == t.queues && p !in u.queues[a];
      UnsetOrder(u, p, {NO_QUANTUM}, a, x, y);
    }
  }

  lemma SwitchOrder(s: Sched, a: nat, x: nat, y: nat)
    requires Inv(s) && a < NR_SCHED_QUEUES
    ensures InOrder(s, Switch(s), a, x, y)
  {
    if s.cur != IDLE && PREEMPTED in s.slots[s.cur].flags {
      var t := s.With(s.cur, s.slots[s.cur].(flags := s.slots[s.cur].flags - {PREEMPTED}));
      if t.slots[s.cur].Runnable() {
        AppendOrder(t, s.cur, a, x, y);
        EnqueueOrder(t, s.cur, a, x, y);
      }
    }
  }

  predicate Moves(step: Step, x: nat) { step.Reschedule? && step.p == x }

  /** No step reorders two processes that stay on a queue, except that sched_proc puts its own
      process at the end. */
  lemma StepOrder(s: Sched, step: Step, a: nat, x: nat, y: nat)
    requires Inv(s) && Enabled(s, step) && a < NR_SCHED_QUEUES && !Moves(step, x)
    ensures Apply(s, step).Shape() && InOrder(s, Apply(s, step), a, x, y)
  {
    StepKeeps(s, step);
    match step
    case Set(p, f) => SetOrder(s, p, f, a, x, y);
    case Unset(p, f) => UnsetOrder(s, p, f, a, x, y);
    case Reschedule(p, priority, quantum, cycles) => SchedProcOrder(s, p, priority, quantum, cycles, a, x, y);
    case Charge(p, left) =>
    case Select => SwitchOrder(s, a, x, y);
  }

  ghost predicate Together(s: Sched, a: nat, x: nat, y: nat) {
    a < |s.queues| && x in s.queues[a] && y in s.queues[a]
  }

  ghost predicate Ahead(s: Sched, a: nat, x: nat, y: nat) {
    Together(s, a, x, y) && Before(s.queues[a], x, y)
  }

  /** While two processes stay on a queue the first is not overtaken by the second, in any run. */
  lemma {:induction false} NoOvertaking(states: seq<Sched>, steps: seq<Step>, i: nat, j: nat, a: nat, x: nat, y: nat)
    requires Run(states, steps) && i <= j < |states| && a < NR_SCHED_QUEUES
    requires forall k :: i <= k <= j ==> Together(states[k], a, x, y)
    requires forall k :: i <= k < j ==> !Moves(steps[k], x)
    requires Ahead(states[i], a, x, y)
    ensures Ahead(states[j], a, x, y)
    decreases j - i
  {
    if i < j {
      RunsKeep(states, steps, i);
      assert Leads(states[i], steps[i], states[i + 1]);
      assert Together(states[i + 1], a, x, y);
      StepOrder(states[i], steps[i], a, x, y);
      NoOvertaking(states, steps, i + 1, j, a, x, y);
    }
  }

  // ---------------------------------------------------------------- preemption

  /** Whenever a process is selected, no process is left preempted: the one that was is back on its
      queue, in front if it has time left, unless it is stopped for another reason as well. */
  lemma NobodyForgotten(s: Sched)
    requires Inv(s) && (s.cur == IDLE || !s.slots[s.cur].Runnable())
    ensures var t := Switch(s);
      && |t.slots| == |s.slots| && t.Shape()
      && (forall x :: 0 <= x < |t.slots| ==>
            PREEMPTED !in t.slots[x].flags && t.slots[x] == s.slots[x].(flags := s.slots[x].flags - {PREEMPTED}))
      && (s.cur != IDLE && s.slots[s.cur].flags == {PREEMPTED} ==>
            var q := t.queues[s.slots[s.cur].priority];
            q != [] && s.cur == if s.slots[s.cur].timeLeft != 0 then q[0] else q[|q| - 1])
  {
    SwitchKeeps(s);
    forall x | 0 <= x < |s.slots| && PREEMPTED !in s.slots[x].flags
      ensures s.slots[x].flags - {PREEMPTED} == s.slots[x].flags {}
  }

  /** A new selection takes a runnable process than which none is more urgent; the CPU idles
      exactly if nothing is runnable. */
  lemma SelectsBest(s: Sched)
    requires Inv(s) && (s.cur == IDLE || !s.slots[s.cur].Runnable())
    ensures var t := Switch(s);
      && t.Shape()
      && (t.cur == IDLE <==> forall x :: 0 <= x < |t.slots| ==> !t.slots[x].Runnable())
      && (t.cur != IDLE ==>
            && t.slots[t.cur].Runnable()
            && forall x :: 0 <= x < |t.slots| && t.slots[x].Runnable() ==> t.slots[t.cur].priority <= t.slots[x].priority)
  {
    SwitchKeeps(s);
    RestoreFiled(s);
    PickBest(Restore(s));
  }

  // ---------------------------------------------------------------- urgency

  /** A preemptible current process that has not been preempted is not less urgent than any
      runnable process. */
  ghost predicate Urgent(s: Sched)
    requires s.Shape()
  {
    s.cur != IDLE && s.slots[s.cur].preemptible && PREEMPTED !in s.slots[s.cur].flags ==>
      forall x :: 0 <= x < |s.slots| && s.slots[x].Runnable() ==> s.slots[s.cur].priority <= s.slots[x].priority
  }

  /** sched_proc makes the current process less urgent than some runnable process. */
  ghost predicate Demotes(s: Sched, step: Step)
    requires s.Shape()
  {
    && step.Reschedule? && step.p == s.cur && InRange(step.priority, step.quantum) && step.priority != -1
    && s.slots[s.cur].preemptible && PREEMPTED !in s.slots[s.cur].flags
    && exists x :: 0 <= x < |s.slots| && x != s.cur && s.slots[x].Runnable() && s.slots[x].priority < step.priority
  }

  lemma EnqueueUrgent(s: Sched, p: nat)
    requires s.Shape() && Missing(s, p)
    requires s.cur != IDLE && s.slots[s.cur].preemptible && PREEMPTED !in s.slots[s.cur].flags ==>
      forall x :: 0 <= x < |s.slots| && x != p && s.slots[x].Runnable() ==> s.slots[s.cur].priority <= s.slots[x].priority
    ensures Urgent(Enqueue(s, p))
  {
  }

  lemma UnsetUrgent(s: Sched, p: nat, f: set<Flag>)
    requires s.Shape() && Filed(s) && p < |s.slots| && Urgent(s) && PREEMPTED !in f
    ensures Urgent(RtsUnset(s, p, f))
  {
    var t := s.With(p, s.slots[p].(flags := s.slots[p].flags - f));
    if !s.slots[p].Runnable() && t.slots[p].Runnable() { EnqueueUrgent(t, p); }
  }

  lemma SchedOtherUrgent(s: Sched, p: nat, priority: int, quantum: int, cycles: nat)
    requires Inv(s) && Urgent(s) && p < |s.slots| && !Misses(priority, quantum) && p != s.cur
    ensures Urgent(SchedProc(s, p, priority, quantum, cycles).0)
  {
    if InRange(priority, quantum) {
      var t := if s.slots[p].Runnable() then RtsSet(s, p, {NO_QUANTUM}) else s;
      RtsSetFiled(s, p, {NO_QUANTUM});
      var u := t.With(p, NewTerms(t.slots[p], priority, quantum, cycles));
      UnsetUrgent(u, p, {NO_QUANTUM});
    }
  }

  /** What sched_proc makes of the current process itself: it is not preempted. */
  lemma SchedSelf(s: Sched, priority: int, quantum: int, cycles: nat)
    requires s.Shape() && s.cur != IDLE && !Misses(priority, quantum) && InRange(priority, quantum)
    ensures var t := SchedProc(s, s.cur, priority, quantum, cycles).0;
      && t.cur == s.cur
      && t.slots == s.slots[s.cur :=
           NewTerms(s.slots[s.cur], priority, quantum, cycles).(flags := s.slots[s.cur].flags - {NO_QUANTUM})]
  {
    var v := s.slots[s.cur];
    if v.Runnable() { assert ({} + {NO_QUANTUM}) - {NO_QUANTUM} == v.flags - {NO_QUANTUM}; }
  }

  lemma SchedSelfUrgent(s: Sched, step: Step)
    requires Inv(s) && Urgent(s) && Enabled(s, step) && step.Reschedule? && step.p == s.cur
    ensures Apply(s, step).Shape() && (Urgent(Apply(s, step)) <==> !Demotes(s, step))
  {
    if InRange(step.priority, step.quantum) {
      SchedSelf(s, step.priority, step.quantum, step.cycles);
      var t := Apply(s, step);
      assert forall x :: 0 <= x < |s.slots| && x != s.cur ==> t.slots[x] == s.slots[x];
    }
  }

  /** Every step keeps the current process the most urgent one, unless sched_proc demotes it
      behind a runnable process: it is not preempted then. */
  lemma StepUrgent(s: Sched, step: Step)
    requires Inv(s) && Urgent(s) && Enabled(s, step)
    ensures Apply(s, step).Shape() && (Urgent(Apply(s, step)) <==> !Demotes(s, step))
  {
    StepKeeps(s, step);
    match step
    case Set(p, f) =>
    case Unset(p, f) => UnsetUrgent(s, p, f);
    case Reschedule(p, priority, quantum, cycles) =>
      if p != s.cur {
        SchedOtherUrgent(s, p, priority, quantum, cycles);
      } else {
        SchedSelfUrgent(s, step);
      }
    case Charge(p, left) =>
    case Select =>
      if s.cur == IDLE || !s.slots[s.cur].Runnable() { SelectsBest(s); }
  }

  /** In a run without such a demotion the preemptible process that runs is always among the most
      urgent ones. */
  lemma {:induction false} UrgentRuns(states: seq<Sched>, steps: seq<Step>, k: nat)
    requires Run(states, steps) && k < |states|
    requires forall j :: 0 <= j < k ==> states[j].Shape() && !Demotes(states[j], steps[j])
    ensures states[k].Shape() && Urgent(states[k])
  {
    if k > 0 {
      var j := k - 1;
      UrgentRuns(states, steps, j);
      RunsKeep(states, steps, j);
      assert Leads(states[j], steps[j], states[j + 1]);
      StepUrgent(states[j], steps[j]);
    }
  }

  /** A demoted process that runs goes on running before the more urgent one: the next selection
      changes nothing. */
  lemma DemotedRunsOn(s: Sched, step: Step)
    requires Inv(s) && Enabled(s, step) && Demotes(s, step) && s.slots[s.cur].Runnable()
    ensures var t := Apply(s, step);
      && t.Shape() && t.cur == s.cur && Switch(t) == t
      && exists x :: 0 <= x < |t.slots| && t.slots[x].Runnable() && t.slots[x].priority < t.slots[t.cur].priority
  {
    SchedSelf(s, step.priority, step.quantum, step.cycles);
    var x :| 0 <= x < |s.slots| && x != s.cur && s.slots[x].Runnable() && s.slots[x].priority < step.priority;
    var t := Apply(s, step);
    assert t.slots[x] == s.slots[x];
    assert t.slots[x].Runnable() && t.slots[x].priority < t.slots[t.cur].priority;
  }

  /** A run that ends with such a demotion: process 0 becomes runnable at priority 7 and is selected, process 1
      becomes runnable at priority 8, and the scheduler moves process 0 to priority 15. */
  lemma DemotionHappens() returns (states: seq<Sched>, steps: seq<Step>)
    ensures Run(states, steps) && |states| == 4 && states[3].Shape() && Urgent(states[3])
    ensures Enabled(states[3], Reschedule(0, 15, -1, 0)) && Demotes(states[3], Reschedule(0, 15, -1, 0))
    ensures states[3].slots[states[3].cur].Runnable()
  {
    var s0 := Sched([Slot({PROC_STOP}, 7, true, 1, 1, true), Slot({PROC_STOP}, 8, true, 1, 1, true)],
                    seq(NR_SCHED_QUEUES, _ => []), IDLE);
    var s1 := RtsUnset(s0, 0, {PROC_STOP});
    assert s1.slots[0].flags == {} && s1.slots[1] == s0.slots[1] && s1.cur == IDLE;
    StepKeeps(s0, Unset(0, {PROC_STOP}));
    var s2 := Switch(s1);
    SelectsBest(s1);
    SwitchKeeps(s1);
    assert s2.slots == s1.slots && s2.cur == 0;
    var s3 := RtsUnset(s2, 1, {PROC_STOP});
    assert s3.slots[1].flags == {} && s3.slots[0] == s2.slots[0] && s3.cur == 0;
    states, steps := [s0, s1, s2, s3], [Unset(0, {PROC_STOP}), Select, Unset(1, {PROC_STOP})];
    assert Leads(states[0], steps[0], states[1]);
    assert Leads(states[1], steps[1], states[2]);
    assert Leads(states[2], steps[2], states[3]);
    UrgentRuns(states, steps, 3);
    assert s3.slots[1].Runnable() && s3.slots[1].priority < 15;
  }
}
